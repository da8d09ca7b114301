/** Small notions shared by the models of NyxNet's components. */
module Common {

  datatype Option<+T> = None | Some(value: T)

  newtype Byte = n: int | 0 <= n < 256

  type NodeId = nat

  function Min(a: nat, b: nat): nat
  {
    if a < b then a else b
  }

  /** `n` copies of one value. */
  function Repeat<T>(x: T, n: nat): (xs: seq<T>)
    ensures |xs| == n
  {
    if n == 0 then [] else Repeat(x, n - 1) + [x]
  }

  /** The sequence without its element at `i`. */
  function Without<T>(a: seq<T>, i: nat): seq<T>
    requires i < |a|
  {
    a[..i] + a[i + 1..]
  }

  ghost predicate NonDecreasing(s: seq<real>)
  {
    forall i, j :: 0 <= i <= j < |s| ==> s[i] <= s[j]
  }

  /** The sum of a measure over a sequence. */
  function SumOf<T>(xs: seq<T>, measure: T -> nat): nat
  {
    if xs == [] then 0 else SumOf(xs[..|xs| - 1], measure) + measure(xs[|xs| - 1])
  }

  lemma SumOfSnoc<T>(a: seq<T>, x: T, measure: T -> nat)
    ensures SumOf(a + [x], measure) == SumOf(a, measure) + measure(x)
  {
    assert (a + [x])[..|a|] == a;
  }

  lemma {:induction false} SumOfConcat<T>(a: seq<T>, b: seq<T>, measure: T -> nat)
    ensures SumOf(a + b, measure) == SumOf(a, measure) + SumOf(b, measure)
    decreases |b|
  {
    if b == [] {
      assert a + b == a;
    } else {
      var init, last := b[..|b| - 1], b[|b| - 1];
      SumOfConcat(a, init, measure);
      assert a + b == (a + init) + [last];
      SumOfSnoc(a + init, last, measure);
    }
  }

  lemma SumOfSplice<T>(a: seq<T>, x: T, b: seq<T>, measure: T -> nat)
    ensures SumOf(a + [x] + b, measure) == SumOf(a + b, measure) + measure(x)
  {
    SumOfConcat(a + [x], b, measure);
    SumOfSnoc(a, x, measure);
    SumOfConcat(a, b, measure);
  }

  lemma SumOfAround<T>(xs: seq<T>, i: nat, measure: T -> nat)
    requires i < |xs|
    ensures SumOf(xs, measure) == SumOf(Without(xs, i), measure) + measure(xs[i])
  {
    SplitAround(xs, i);
    SumOfSplice(xs[..i], xs[i], xs[i + 1..], measure);
  }

  lemma SplitAround<T>(xs: seq<T>, i: nat)
    requires i < |xs|
    ensures xs[..i] + [xs[i]] + xs[i + 1..] == xs
  {
  }

  /** One update of an exponentially smoothed estimate; an estimate of zero counts as not set yet. */
  function Smooth(estimate: real, sample: real): real
  {
    if estimate == 0.0 then sample else (1.0 - 0.2) * estimate + 0.2 * sample
  }

  function PowReal(x: real, e: nat): real
  {
    if e == 0 then 1.0 else x * PowReal(x, e - 1)
  }

  lemma RatioBounds(part: nat, total: nat)
    requires part <= total && total > 0
    ensures 0.0 <= part as real / total as real <= 1.0
  {
    var q := part as real / total as real;
    assert q * total as real == part as real;
    if q > 1.0 {
      Grows(q, total as real);
    }
  }

  lemma Grows(q: real, t: real)
    requires q > 1.0 && t > 0.0
    ensures q * t > t
  {
    assert (q - 1.0) * t > 0.0;
  }

  /** The sum of the values of a finite map. */
  ghost function Sum<K(!new)>(m: map<K, int>): (total: int)
  {
    if m == map[] then 0 else
      var k :| k in m;
      m[k] + Sum(m - {k})
  }

  /** Any key may be split off first, so the choice made in `Sum` does not matter. */
  lemma {:induction false} SumSplit<K(!new)>(m: map<K, int>, k: K)
    requires k in m
    ensures Sum(m) == m[k] + Sum(m - {k})
    decreases |m|
  {
    var j :| j in m && Sum(m) == m[j] + Sum(m - {j});
    if j != k {
      SumSplit(m - {j}, k);
      SumSplit(m - {k}, j);
      assert m - {j} - {k} == m - {k} - {j};
    }
  }

  lemma SumUpdate<K(!new)>(m: map<K, int>, k: K, v: int)
    ensures Sum(m[k := v]) == Sum(m) + v - (if k in m then m[k] else 0)
  {
    SumSplit(m[k := v], k);
    assert m[k := v] - {k} == m - {k};
    if k in m {
      SumSplit(m, k);
    } else {
      assert m - {k} == m;
    }
  }

  /** Sums commute with pointwise addition and with scaling. */
  lemma {:induction false} SumAdd<K(!new)>(a: map<K, int>, b: map<K, int>, c: map<K, int>)
    requires a.Keys == b.Keys == c.Keys
    requires forall k :: k in a ==> c[k] == a[k] + b[k]
    ensures Sum(c) == Sum(a) + Sum(b)
    decreases |a|
  {
    if a == map[] {
      assert b == map[] && c == map[];
    } else {
      var k :| k in a;
      SumSplit(a, k);
      SumSplit(b, k);
      SumSplit(c, k);
      SumAdd(a - {k}, b - {k}, c - {k});
    }
  }

  lemma {:induction false} SumScale<K(!new)>(a: map<K, int>, b: map<K, int>, p: int)
    requires a.Keys == b.Keys
    requires forall k :: k in a ==> b[k] == p * a[k]
    ensures Sum(b) == p * Sum(a)
    decreases |a|
  {
    if a == map[] {
      assert b == map[];
    } else {
      var k :| k in a;
      SumSplit(a, k);
      SumSplit(b, k);
      SumScale(a - {k}, b - {k}, p);
      Distribute(p, a[k], Sum(a - {k}));
    }
  }

  lemma Distribute(p: int, x: int, y: int)
    ensures p * (x + y) == p * x + p * y
  {
  }

  lemma {:induction false} SumMonotone<K(!new)>(a: map<K, int>, b: map<K, int>)
    requires a.Keys == b.Keys
    requires forall k :: k in a ==> a[k] <= b[k]
    ensures Sum(a) <= Sum(b)
    decreases |a|
  {
    if a == map[] {
      assert b == map[];
    } else {
      var k :| k in a;
      SumSplit(a, k);
      SumSplit(b, k);
      SumMonotone(a - {k}, b - {k});
    }
  }

  /** Pointwise smaller maps with the same sum are equal. */
  lemma SumEqual<K(!new)>(a: map<K, int>, b: map<K, int>)
    requires a.Keys == b.Keys
    requires forall k :: k in a ==> a[k] <= b[k]
    requires Sum(a) == Sum(b)
    ensures a == b
  {
    forall k | k in a
      ensures a[k] == b[k]
    {
      SumSplit(a, k);
      SumSplit(b, k);
      SumMonotone(a - {k}, b - {k});
    }
  }

  lemma {:induction false} SumConstant<K(!new)>(m: map<K, int>, v: int)
    requires forall k :: k in m ==> m[k] == v
    ensures Sum(m) == v * |m|
    decreases |m|
  {
    if m == map[] {
    } else {
      var k :| k in m;
      SumSplit(m, k);
      SumConstant(m - {k}, v);
      assert |m - {k}| == |m| - 1 by { assert m.Keys - {k} == (m - {k}).Keys; }
      assert v * (|m| - 1) == v * |m| - v;
    }
  }
}
