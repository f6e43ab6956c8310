/** Sums over sequences, and the few facts about averages that the scores rest on. */
module Sums {

  /** The sum of `f(x)` for the `x` of `s`. */
  function Total<T>(f: T -> real, s: seq<T>): real {
    if s == [] then 0.0 else f(s[0]) + Total(f, s[1..])
  }

  lemma {:induction false} TotalConcat<T>(f: T -> real, s: seq<T>, t: seq<T>)
    ensures Total(f, s + t) == Total(f, s) + Total(f, t)
  {
    if s == [] {
      assert s + t == t;
    } else {
      assert (s + t)[1..] == s[1..] + t;
      TotalConcat(f, s[1..], t);
    }
  }

  lemma {:induction false} TotalOfOne<T>(f: T -> real, x: T)
    ensures Total(f, [x]) == f(x) && Total(f, []) == 0.0
  {
    assert [x][1..] == [];
  }

  lemma {:induction false} TotalSame<T>(f: T -> real, g: T -> real, s: seq<T>)
    requires forall i :: 0 <= i < |s| ==> f(s[i]) == g(s[i])
    ensures Total(f, s) == Total(g, s)
  {
    TotalMonotone(f, s, g, s);
    TotalMonotone(g, s, f, s);
  }

  lemma {:induction false} TotalWithout<T>(f: T -> real, s: seq<T>, i: nat)
    requires i < |s|
    ensures Total(f, s) == Total(f, s[..i] + s[i + 1..]) + f(s[i])
  {
    assert s == s[..i] + ([s[i]] + s[i + 1..]);
    TotalConcat(f, s[..i], [s[i]] + s[i + 1..]);
    TotalConcat(f, s[..i], s[i + 1..]);
    TotalConcat(f, [s[i]], s[i + 1..]);
    TotalOfOne(f, s[i]);
  }

  lemma {:induction false} Position<T>(s: seq<T>, t: seq<T>) returns (i: nat)
    requires s != [] && multiset(s) == multiset(t)
    ensures i < |t| && t[i] == s[0]
  {
    assert s[0] in multiset(t);
    i :| i < |t| && t[i] == s[0];
  }

  lemma {:induction false} SameRest<T>(s: seq<T>, t: seq<T>, i: nat)
    requires s != [] && i < |t| && t[i] == s[0] && multiset(s) == multiset(t)
    ensures multiset(s[1..]) == multiset(t[..i] + t[i + 1..])
  {
    assert s == [s[0]] + s[1..] && t == t[..i] + [t[i]] + t[i + 1..];
    assert multiset(s[1..]) == multiset(s) - multiset{s[0]};
  }

  /** A sum does not depend on the order of its terms. */
  lemma {:induction false} TotalPermuted<T>(f: T -> real, s: seq<T>, t: seq<T>)
    requires multiset(s) == multiset(t)
    ensures Total(f, s) == Total(f, t)
  {
    hide Total;
    assert |multiset(s)| == |multiset(t)|;
    if s != [] {
      var i := Position(s, t);
      TotalWithout(f, s, 0);
      TotalWithout(f, t, i);
      assert s[..0] + s[1..] == s[1..];
      SameRest(s, t, i);
      TotalPermuted(f, s[1..], t[..i] + t[i + 1..]);
    }
  }

  lemma {:induction false} TotalMonotone<S, T>(f: S -> real, s: seq<S>, g: T -> real, t: seq<T>)
    requires |s| == |t| && forall i :: 0 <= i < |s| ==> f(s[i]) <= g(t[i])
    ensures Total(f, s) <= Total(g, t)
  {
    if s != [] {
      TotalMonotone(f, s[1..], g, t[1..]);
    }
  }

  lemma {:induction false} TotalNonNegative<T>(f: T -> real, s: seq<T>)
    requires forall i :: 0 <= i < |s| ==> f(s[i]) >= 0.0
    ensures Total(f, s) >= 0.0
  {
    if s != [] {
      TotalNonNegative(f, s[1..]);
    }
  }

  // --- Averages --------------------------------------------------------------------

  /** `v` lies between `low` and `high`, both scaled by a weight that is not negative. */
  lemma {:induction false} ScaledBetween(low: real, v: real, high: real, w: real)
    requires w >= 0.0 && low <= v <= high
    ensures low * w <= v * w <= high * w
  {
    assert (v - low) * w >= 0.0 && (high - v) * w >= 0.0;
  }

  lemma {:induction false} Spread(k: real, a: real, b: real)
    ensures k * (a + b) == k * a + k * b
  {}

  function Times(x: real, y: real): real { x * y }

  lemma {:induction false} TimesSpreads(k: real, a: real, b: real)
    ensures Times(k, a + b) == Times(k, a) + Times(k, b)
  {
    Spread(k, a, b);
  }

  lemma {:induction false} TimesBetween(low: real, v: real, high: real, w: real)
    requires w >= 0.0 && low <= v <= high
    ensures Times(low, w) <= Times(v, w) <= Times(high, w)
  {
    ScaledBetween(low, v, high, w);
  }

  lemma {:induction false} OneMoreTerm(low: real, v: real, high: real, w: real, weights: real, products: real)
    requires w >= 0.0 && low <= v <= high && Times(low, weights) <= products <= Times(high, weights)
    ensures Times(low, w + weights) <= Times(v, w) + products <= Times(high, w + weights)
  {
    hide Times;
    TimesBetween(low, v, high, w);
    TimesSpreads(low, w, weights);
    TimesSpreads(high, w, weights);
  }

  /** A weighted sum lies between its bounds times the sum of the weights. */
  lemma {:induction false} WeightedBounds<T>(value: T -> real, weight: T -> real, product: T -> real, s: seq<T>,
                                             low: real, high: real)
    requires forall i :: 0 <= i < |s| ==> weight(s[i]) >= 0.0 && low <= value(s[i]) <= high
    requires forall i :: 0 <= i < |s| ==> product(s[i]) == Times(value(s[i]), weight(s[i]))
    ensures Times(low, Total(weight, s)) <= Total(product, s) <= Times(high, Total(weight, s))
  {
    if s != [] {
      hide Times;
      WeightedBounds(value, weight, product, s[1..], low, high);
      OneMoreTerm(low, value(s[0]), high, weight(s[0]), Total(weight, s[1..]), Total(product, s[1..]));
    }
  }

  lemma {:induction false} QuotientMonotone(x: real, y: real, n: real)
    requires n > 0.0 && x <= y
    ensures x / n <= y / n
  {
    var (p, q) := (x / n, y / n);
    assert p * n == x && q * n == y;
    assert (q - p) * n == y - x;
    Ordered(p, q, n);
  }

  lemma {:induction false} Ordered(p: real, q: real, n: real)
    requires n > 0.0 && (q - p) * n >= 0.0
    ensures p <= q
  {}

  lemma {:induction false} Cancel(k: real, n: real)
    requires n != 0.0
    ensures (k * n) / n == k
  {}

  lemma {:induction false} QuotientBetween(low: real, x: real, high: real, n: real)
    requires n > 0.0 && low * n <= x <= high * n
    ensures low <= x / n <= high
  {
    QuotientMonotone(low * n, x, n);
    QuotientMonotone(x, high * n, n);
    Cancel(low, n);
    Cancel(high, n);
  }

  lemma {:induction false} CancelFactor(x: real, y: real, k: real)
    requires y != 0.0 && k != 0.0
    ensures y * k != 0.0 && (x * k) / (y * k) == x / y
  {
    var q := x / y;
    assert q * y == x;
    assert q * (y * k) == x * k;
  }
}
