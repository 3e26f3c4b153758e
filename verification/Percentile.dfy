/** Interpolated percentiles of latencies (src/robot_dh/inference/metrics.py), over the reals. */
module Percentile {
  import opened Wrappers
  import opened Schemas

  predicate Sorted(xs: seq<real>) { forall i, j :: 0 <= i <= j < |xs| ==> xs[i] <= xs[j] }

  function Insert(x: real, xs: seq<real>): seq<real> {
    if xs == [] || x <= xs[0] then [x] + xs else [xs[0]] + Insert(x, xs[1..])
  }

  function Sort(xs: seq<real>): seq<real> {
    if xs == [] then [] else Insert(xs[0], Sort(xs[1..]))
  }

  /** The values that are present, in order. */
  function Present(values: seq<Option<real>>): seq<real> {
    if values == [] then []
    else if values[0].None? then Present(values[1..])
    else [values[0].value] + Present(values[1..])
  }

  function Mul(x: real, y: real): real { x * y }

  function Lerp(a: real, b: real, f: real): real { a + Mul(b - a, f) }

  /** Value of a sorted list at a real position, linear between neighbours. */
  function At(clean: seq<real>, x: real): real
    requires clean != [] && 0.0 <= x <= (|clean| - 1) as real
  {
    var lo := x.Floor;
    var hi := if lo + 1 < |clean| - 1 then lo + 1 else |clean| - 1;
    Lerp(clean[lo], clean[hi], x - lo as real)
  }

  lemma ScaleMonotone(f: real, g: real, d: real)
    requires f <= g && d >= 0.0
    ensures Mul(f, d) <= Mul(g, d) && Mul(d, f) <= Mul(d, g)
  {
    var e := g - f;
    assert e * d >= 0.0;
    assert (f + e) * d == f * d + e * d;
  }

  /** `idx = q * top`: a position between the first and the last entry. */
  function Scale(q: real, top: nat): (x: real)
    requires 0.0 <= q <= 1.0
    ensures 0.0 <= x <= top as real
  {
    ScaleMonotone(0.0, q, top as real);
    ScaleMonotone(q, 1.0, top as real);
    Mul(q, top as real)
  }

  lemma ScaleUp(q: real, r: real, top: nat)
    requires 0.0 <= q <= r <= 1.0
    ensures Scale(q, top) <= Scale(r, top)
  {
    ScaleMonotone(q, r, top as real);
  }

  function PercentileOf(clean: seq<real>, q: real): Option<real>
    requires 0.0 <= q <= 1.0
  {
    if clean == [] then None
    else if |clean| == 1 then Some(clean[0])
    else Some(At(clean, Scale(q, |clean| - 1)))
  }

  function Percentile(values: seq<Option<real>>, q: real): Option<real>
    requires 0.0 <= q <= 1.0
  {
    PercentileOf(Sort(Present(values)), q)
  }

  // ---------- sorting ----------

  lemma {:induction false} InsertKeeps(x: real, xs: seq<real>)
    ensures multiset(Insert(x, xs)) == multiset(xs) + multiset{x}
  {
    if xs == [] || x <= xs[0] {
    } else {
      InsertKeeps(x, xs[1..]);
      assert xs == [xs[0]] + xs[1..];
    }
  }

  lemma {:induction false} InsertSorts(x: real, xs: seq<real>)
    requires Sorted(xs)
    ensures Sorted(Insert(x, xs))
    ensures Insert(x, xs) != [] && (Insert(x, xs)[0] == x || (xs != [] && Insert(x, xs)[0] == xs[0]))
  {
    if xs == [] || x <= xs[0] {
    } else {
      InsertSorts(x, xs[1..]);
      var t := Insert(x, xs[1..]);
      assert xs[0] <= t[0];
    }
  }

  lemma {:induction false} SortSorts(xs: seq<real>)
    ensures Sorted(Sort(xs)) && multiset(Sort(xs)) == multiset(xs) && |Sort(xs)| == |xs|
  {
    if xs != [] {
      SortSorts(xs[1..]);
      InsertSorts(xs[0], Sort(xs[1..]));
      InsertKeeps(xs[0], Sort(xs[1..]));
      assert xs == [xs[0]] + xs[1..];
    }
    assert |multiset(Sort(xs))| == |multiset(xs)|;
  }

  lemma Uncons(a: seq<real>)
    requires a != []
    ensures multiset(a[1..]) == multiset(a) - multiset{a[0]}
  {
    assert a == [a[0]] + a[1..];
  }

  lemma LeastFirst(a: seq<real>, b: seq<real>)
    requires Sorted(a) && multiset(a) == multiset(b) && b != []
    ensures a != [] && a[0] <= b[0]
  {
    assert b[0] in multiset(b);
    assert b[0] in a;
  }

  /** A sorted list is determined by its multiset. */
  lemma {:induction false} SortedUnique(a: seq<real>, b: seq<real>)
    requires Sorted(a) && Sorted(b) && multiset(a) == multiset(b)
    ensures a == b
  {
    if a == [] || b == [] {
      assert |multiset(a)| == |multiset(b)|;
    } else {
      LeastFirst(a, b);
      LeastFirst(b, a);
      Uncons(a);
      Uncons(b);
      SortedUnique(a[1..], b[1..]);
      Reassemble(a, b);
    }
  }

  lemma Reassemble(a: seq<real>, b: seq<real>)
    requires a != [] && b != [] && a[0] == b[0] && a[1..] == b[1..]
    ensures a == b
  {
    assert a == [a[0]] + a[1..] && b == [b[0]] + b[1..];
  }

  lemma SortCanonical(xs: seq<real>, ys: seq<real>)
    requires multiset(xs) == multiset(ys)
    ensures Sort(xs) == Sort(ys)
  {
    SortSorts(xs);
    SortSorts(ys);
    SortedUnique(Sort(xs), Sort(ys));
  }

  // ---------- main results ----------

  /** Only the collection of present values matters, not their order. */
  lemma OrderIndependent(a: seq<Option<real>>, b: seq<Option<real>>, q: real)
    requires 0.0 <= q <= 1.0 && multiset(Present(a)) == multiset(Present(b))
    ensures Percentile(a, q) == Percentile(b, q)
  {
    SortCanonical(Present(a), Present(b));
  }

  lemma LerpMonotone(a: real, b: real, f: real, g: real)
    requires a <= b && 0.0 <= f <= g <= 1.0
    ensures a <= Lerp(a, b, f) <= Lerp(a, b, g) <= b
  {
    var d := b - a;
    ScaleMonotone(0.0, f, d);
    ScaleMonotone(f, g, d);
    ScaleMonotone(g, 1.0, d);
  }

  /** The interpolated value lies between the entries around its position. */
  lemma AtBetween(clean: seq<real>, x: real)
    requires clean != [] && Sorted(clean) && 0.0 <= x <= (|clean| - 1) as real
    ensures var lo := x.Floor;
            clean[lo] <= At(clean, x) <= clean[if lo + 1 < |clean| - 1 then lo + 1 else |clean| - 1]
  {
    var lo := x.Floor;
    var hi := if lo + 1 < |clean| - 1 then lo + 1 else |clean| - 1;
    LerpMonotone(clean[lo], clean[hi], x - lo as real, x - lo as real);
  }

  lemma AtMonotone(clean: seq<real>, x: real, y: real)
    requires clean != [] && Sorted(clean) && 0.0 <= x <= y <= (|clean| - 1) as real
    ensures At(clean, x) <= At(clean, y)
  {
    var lo := x.Floor;
    if lo == y.Floor {
      var hi := if lo + 1 < |clean| - 1 then lo + 1 else |clean| - 1;
      LerpMonotone(clean[lo], clean[hi], x - lo as real, y - lo as real);
    } else {
      AtBetween(clean, x);
      AtBetween(clean, y);
    }
  }

  /** The percentile of any non-empty list lies between two of its values that bound
      the list: its least and its greatest. */
  lemma WithinRange(values: seq<Option<real>>, q: real, v: real)
    requires 0.0 <= q <= 1.0 && Percentile(values, q) == Some(v)
    ensures exists least :: least in Present(values) && least <= v &&
              forall x :: x in Present(values) ==> least <= x
    ensures exists greatest :: greatest in Present(values) && v <= greatest &&
              forall x :: x in Present(values) ==> x <= greatest
  {
    var xs := Present(values);
    var clean := Sort(xs);
    SortSorts(xs);
    assert |clean| > 0;
    OfBetween(clean, q);
    assert xs != [];
    AllWithin(xs, clean);
    assert clean[0] in multiset(clean) && clean[|clean| - 1] in multiset(clean);
    assert clean[0] in xs && clean[|clean| - 1] in xs;
  }

  lemma OfBetween(clean: seq<real>, q: real)
    requires clean != [] && Sorted(clean) && 0.0 <= q <= 1.0
    ensures PercentileOf(clean, q).Some? && clean[0] <= PercentileOf(clean, q).value <= clean[|clean| - 1]
  {
    if |clean| > 1 { AtBetween(clean, Scale(q, |clean| - 1)); }
  }

  lemma OfMonotone(clean: seq<real>, q: real, r: real)
    requires clean != [] && Sorted(clean) && 0.0 <= q <= r <= 1.0
    ensures PercentileOf(clean, q).value <= PercentileOf(clean, r).value
  {
    if |clean| > 1 {
      ScaleUp(q, r, |clean| - 1);
      AtMonotone(clean, Scale(q, |clean| - 1), Scale(r, |clean| - 1));
    }
  }

  /** Percentiles grow with the fraction. */
  lemma Monotone(values: seq<Option<real>>, q: real, r: real)
    requires 0.0 <= q <= r <= 1.0
    ensures match (Percentile(values, q), Percentile(values, r))
            case (Some(a), Some(b)) => a <= b
            case (None, None) => Present(values) == []
            case _ => false
  {
    SortSorts(Present(values));
    var clean := Sort(Present(values));
    if clean != [] { OfMonotone(clean, q, r); }
  }

  /** Between two entries the value moves from the one to the other in proportion to the
      position: at entry `i` it is that entry, and `f` of the way to the next one it has
      made `f` of the difference. */
  lemma AtMeans(clean: seq<real>, i: nat, f: real)
    requires i < |clean| && 0.0 <= f < 1.0 && (f > 0.0 ==> i + 1 < |clean|)
    ensures At(clean, i as real) == clean[i]
    ensures f > 0.0 ==> At(clean, i as real + f) == clean[i] + (clean[i + 1] - clean[i]) * f
  {
    assert (i as real).Floor == i && (i as real + f).Floor == i;
    var hi := if i + 1 < |clean| - 1 then i + 1 else |clean| - 1;
    MulUnits(clean[hi] - clean[i]);
  }

  /** A fraction of sorted values is the value at that fraction of the last position. */
  lemma PercentileMeans(clean: seq<real>, q: real, i: nat, f: real)
    requires 0.0 <= q <= 1.0 && i < |clean| && 0.0 <= f < 1.0 && (f > 0.0 ==> i + 1 < |clean|)
    requires Mul(q, (|clean| - 1) as real) == i as real + f
    ensures PercentileOf(clean, q) == Some(if f == 0.0 then clean[i] else clean[i] + (clean[i + 1] - clean[i]) * f)
  {
    if |clean| > 1 {
      assert Scale(q, |clean| - 1) == i as real + f;
      AtMeans(clean, i, f);
    }
  }

  /** The present values are the listed ones that are not missing, as often as listed. */
  lemma {:induction false} PresentMeans(values: seq<Option<real>>, x: real)
    ensures multiset(Present(values))[x] == multiset(values)[Some(x)]
  {
    if values != [] {
      var head, tail := values[0], values[1..];
      PresentMeans(tail, x);
      assert values == [head] + tail;
      assert multiset(values)[Some(x)] == (if head == Some(x) then 1 else 0) + multiset(tail)[Some(x)];
      if head.Some? {
        assert Present(values) == [head.value] + Present(tail);
        assert multiset(Present(values))[x] == (if head.value == x then 1 else 0) + multiset(Present(tail))[x];
      }
    }
  }

  /** The end points: fraction 0 is a least value and fraction 1 a greatest. */
  lemma EndPoints(values: seq<Option<real>>)
    requires Present(values) != []
    ensures Percentile(values, 0.0).Some? && Percentile(values, 1.0).Some?
    ensures forall x :: x in Present(values) ==>
      Percentile(values, 0.0).value <= x <= Percentile(values, 1.0).value
  {
    var xs := Present(values);
    var clean := Sort(xs);
    SortSorts(xs);
    AllWithin(xs, clean);
    if |clean| > 1 { AtEnds(clean); }
  }

  lemma AllWithin(xs: seq<real>, clean: seq<real>)
    requires Sorted(clean) && multiset(clean) == multiset(xs) && xs != []
    ensures clean != [] && forall x :: x in xs ==> clean[0] <= x <= clean[|clean| - 1]
  {
    assert xs[0] in multiset(clean);
    forall x | x in xs ensures clean[0] <= x <= clean[|clean| - 1] {
      assert x in multiset(xs);
      assert x in clean;
    }
  }

  lemma AtEnds(clean: seq<real>)
    requires clean != []
    ensures At(clean, Scale(0.0, |clean| - 1)) == clean[0]
    ensures At(clean, Scale(1.0, |clean| - 1)) == clean[|clean| - 1]
  {
    var n := |clean| - 1;
    MulUnits(n as real);
    assert Scale(0.0, n) == 0.0 && Scale(1.0, n) == n as real;
    MulUnits(clean[if 1 < n then 1 else n] - clean[0]);
    MulUnits(clean[n] - clean[n]);
  }

  lemma MulUnits(x: real)
    ensures Mul(0.0, x) == 0.0 && Mul(x, 0.0) == 0.0 && Mul(1.0, x) == x
  {}

  // ---------- compute_metrics ----------

  datatype Metrics = Metrics(total: nat, succeeded: nat, failed: nat,
                             p50: Option<real>, p95: Option<real>, p99: Option<real>, errorRate: real)

  function Latencies(preds: seq<Prediction>): seq<Option<real>> {
    seq(|preds|, i requires 0 <= i < |preds| => preds[i].latency)
  }

  function ComputeMetrics(preds: seq<Prediction>): Metrics {
    var total := |preds|;
    var failed := total - CountOk(preds);
    Metrics(total, CountOk(preds), failed,
            Percentile(Latencies(preds), 0.50), Percentile(Latencies(preds), 0.95),
            Percentile(Latencies(preds), 0.99),
            if total > 0 then failed as real / total as real else 0.0)
  }

  /** In every metrics record p50 <= p95 <= p99 (or all are absent), and the error rate
      is a fraction that is zero exactly when nothing failed. */
  lemma MetricsConsistent(preds: seq<Prediction>)
    ensures var m := ComputeMetrics(preds);
      (m.p50.Some? <==> m.p95.Some?) && (m.p95.Some? <==> m.p99.Some?) &&
      (m.p50.Some? ==> m.p50.value <= m.p95.value <= m.p99.value) &&
      m.succeeded + m.failed == m.total == |preds| &&
      m.p50 == Percentile(Latencies(preds), 0.5) && m.p95 == Percentile(Latencies(preds), 0.95) &&
      m.p99 == Percentile(Latencies(preds), 0.99) &&
      (m.total > 0 ==> m.errorRate * m.total as real == m.failed as real) &&
      0.0 <= m.errorRate <= 1.0 &&
      (m.errorRate == 0.0 <==> AllOk(preds))
  {
    Monotone(Latencies(preds), 0.50, 0.95);
    Monotone(Latencies(preds), 0.95, 0.99);
    AllOkCounted(preds);
    var m := ComputeMetrics(preds);
    if m.total > 0 { FractionBounds(m.failed as real, m.total as real); }
  }

  lemma FractionBounds(a: real, b: real)
    requires 0.0 <= a <= b && b > 0.0
    ensures 0.0 <= a / b <= 1.0 && (a / b == 0.0 <==> a == 0.0)
  {
    assert a / b * b == a;
  }
}
