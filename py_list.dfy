/** The Python list built-ins the survey code relies on: `list.index` and `range`. */
module PyList {
  import opened Wrappers

  /** `xs.index(x)`: the first position holding `x`; `None` where Python raises. */
  function FirstIndex<T(==)>(xs: seq<T>, x: T): (r: Option<nat>)
    ensures r.None? <==> x !in xs
    ensures r.Some? ==> r.value < |xs| && xs[r.value] == x
    ensures r.Some? ==> forall j :: 0 <= j < r.value ==> xs[j] != x
  {
    if |xs| == 0 then None
    else if xs[0] == x then Some(0)
    else match FirstIndex(xs[1..], x)
      case None => None
      case Some(i) => Some(i + 1)
  }

  /** The last position holding `x`, as a loop that visits every match leaves it. */
  function LastIndex<T(==)>(xs: seq<T>, x: T): (r: Option<nat>)
    ensures r.None? <==> x !in xs
    ensures r.Some? ==> r.value < |xs| && xs[r.value] == x
    ensures r.Some? ==> forall j :: r.value < j < |xs| ==> xs[j] != x
  {
    if |xs| == 0 then None
    else if xs[|xs| - 1] == x then Some(|xs| - 1)
    else LastIndex(xs[..|xs| - 1], x)
  }

  /** No value appears twice. */
  predicate Distinct<T(==)>(xs: seq<T>) {
    forall i, j :: 0 <= i < j < |xs| ==> xs[i] != xs[j]
  }

  /** A position holding `x` with no `x` before it is the first index of `x`. */
  lemma FirstIndexIs<T>(xs: seq<T>, x: T, k: nat)
    requires k < |xs| && xs[k] == x && forall j :: 0 <= j < k ==> xs[j] != x
    ensures FirstIndex(xs, x) == Some(k)
  {
    var r := FirstIndex(xs, x);
    assert xs[k] in xs;
  }

  /** In a list without repeats, the value at `k` is found first at `k`. */
  lemma FirstIndexDistinct<T>(xs: seq<T>, k: nat)
    requires Distinct(xs) && k < |xs|
    ensures FirstIndex(xs, xs[k]) == Some(k)
  {
  }

  /**
    `list(range(start, stop, step))`; Python raises ValueError for a zero step,
    so the step is required to be non-zero.
  */
  function PyRange(start: int, stop: int, step: int): (r: seq<int>)
    requires step != 0
    decreases if step > 0 then stop - start else start - stop
  {
    if (step > 0 && start < stop) || (step < 0 && start > stop) then
      [start] + PyRange(start + step, stop, step)
    else []
  }

  /** With a positive step, `range` counts up from `start`, each element below `stop`. */
  lemma {:induction false} PyRangeUp(start: int, stop: int, step: int)
    requires step > 0
    ensures var r := PyRange(start, stop, step);
      && (forall i :: 0 <= i < |r| ==> start <= r[i] < stop)
      && (forall i, j :: 0 <= i < j < |r| ==> r[i] < r[j])
      && (|r| > 0 ==> r[0] == start)
    decreases stop - start
  {
    if start < stop {
      PyRangeUp(start + step, stop, step);
    }
  }

  lemma MulAtLeast(q: int, m: int)
    requires q >= 1 && m > 0
    ensures q * m >= m
  {
  }

  lemma MulBelow(q: int, m: int)
    requires q <= -1 && m > 0
    ensures q * m <= -m
  {
  }

  /** Euclidean division has one quotient and one remainder. */
  lemma DivModUnique(x: int, m: int, q: int, r: int)
    requires m > 0 && 0 <= r < m && x == q * m + r
    ensures x / m == q && x % m == r
  {
    var q0, r0 := x / m, x % m;
    assert (q0 - q) * m == r - r0;
    if q0 - q >= 1 {
      MulAtLeast(q0 - q, m);
    } else if q0 - q <= -1 {
      MulBelow(q0 - q, m);
    }
  }

  lemma ModShift(x: int, m: int)
    requires m > 0
    ensures (x + m) % m == x % m
  {
    DivModUnique(x + m, m, x / m + 1, x % m);
  }

  /**
    The lattice of a rating scale: with a positive step, `v` is one of
    `range(start, stop, step)` exactly when it lies in `[start, stop)` and is a
    whole number of steps above `start`.
  */
  lemma {:induction false} PyRangeLattice(start: int, stop: int, step: int, v: int)
    requires step > 0
    ensures v in PyRange(start, stop, step) <==> start <= v < stop && (v - start) % step == 0
    decreases stop - start
  {
    if start < stop {
      PyRangeLattice(start + step, stop, step, v);
      ModShift(v - (start + step), step);
      PyRangeUp(start + step, stop, step);
      if start < v < start + step {
        DivModUnique(v - start, step, 0, v - start);
      }
    }
  }

  /** With a negative step every element of the range lies above `stop`. */
  lemma {:induction false} PyRangeDown(start: int, stop: int, step: int)
    requires step < 0
    ensures forall i :: 0 <= i < |PyRange(start, stop, step)| ==> stop < PyRange(start, stop, step)[i] <= start
    decreases start - stop
  {
    if start > stop {
      PyRangeDown(start + step, stop, step);
    }
  }
}
