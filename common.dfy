/** Small shared vocabulary: optional values, results, and Python's `range`. */
module Common {

  /** A value that may be absent (Python's `None`). */
  datatype Option<T> = None | Some(value: T) {
    /** The value, or `default` when absent (Python's `dict.get(key, default)`). */
    function GetOr(default: T): T {
      match this
      case Some(v) => v
      case None => default
    }
  }

  /** The outcome of an operation that may raise. */
  datatype Result<T, E> = Ok(value: T) | Err(error: E)

  /** Python's `range(start, stop, step)` for a non-zero step, as a list. */
  function Range(start: int, stop: int, step: int): seq<int>
    requires step != 0
    decreases if step > 0 then stop - start else start - stop
  {
    if step > 0 then
      if start < stop then [start] + Range(start + step, stop, step) else []
    else
      if start > stop then [start] + Range(start + step, stop, step) else []
  }

  /** Uniqueness of Euclidean division: `x == q * d + r` with `0 <= r < d` fixes both. */
  lemma DivModUnique(x: int, d: int, q: int, r: int)
    requires d > 0 && 0 <= r < d && x == q * d + r
    ensures x / d == q && x % d == r
  {
    var q', r' := x / d, x % d;
    assert x == q' * d + r';
    assert (q' - q) * d == r - r' by {
      assert q' * d - q * d == (q' - q) * d;
    }
    if q' > q {
      MultipleAtLeast(q' - q, d);
    } else if q' < q {
      MultipleAtLeast(q - q', d);
    }
  }

  /** A positive multiple of a positive number is at least that number. */
  lemma MultipleAtLeast(k: int, d: int)
    requires k >= 1 && d > 0
    ensures k * d >= d
  {
    assert k * d == (k - 1) * d + d;
    assert (k - 1) * d >= 0;
  }

  /** Removing one divisor's worth from the dividend lowers the quotient by one. */
  lemma DivShift(x: int, d: int)
    requires d > 0 && x >= d
    ensures (x - d) / d + 1 == x / d
  {
    var q, r := (x - d) / d, (x - d) % d;
    assert x == (q + 1) * d + r;
    DivModUnique(x, d, q + 1, r);
  }

  /** The length of `range(start, stop, step)` for a positive step: the number of
      multiples of `step` that fit in `[start, stop)`, rounded up. */
  lemma {:induction false} RangeLength(start: int, stop: int, step: int)
    requires step > 0
    ensures |Range(start, stop, step)| == if start < stop then (stop - start - 1) / step + 1 else 0
    decreases stop - start
  {
    if start < stop {
      RangeLength(start + step, stop, step);
      if start + step < stop {
        DivShift(stop - start - 1, step);
      } else {
        DivModUnique(stop - start - 1, step, 0, stop - start - 1);
      }
    }
  }

  /** Element `i` of `range(start, stop, step)` (positive step) is `start + i * step`, and lies in
      `[start, stop)`; hence the list is strictly ascending and excludes `stop`. */
  lemma {:induction false} RangeElement(start: int, stop: int, step: int, i: nat)
    requires step > 0 && i < |Range(start, stop, step)|
    ensures Range(start, stop, step)[i] == start + i * step
    ensures start <= Range(start, stop, step)[i] < stop
    decreases stop - start
  {
    if i > 0 {
      RangeElement(start + step, stop, step, i - 1);
      assert Range(start, stop, step)[i] == Range(start + step, stop, step)[i - 1];
      assert start + step + (i - 1) * step == start + i * step;
    }
  }

  /** `range` with a positive step is strictly ascending. */
  lemma RangeAscending(start: int, stop: int, step: int, i: nat, j: nat)
    requires step > 0 && i < j < |Range(start, stop, step)|
    ensures Range(start, stop, step)[i] < Range(start, stop, step)[j]
  {
    RangeElement(start, stop, step, i);
    RangeElement(start, stop, step, j);
    assert j * step == i * step + (j - i) * step;
  }
}
