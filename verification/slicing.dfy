/**
  Python's `s[start:stop:step]` on a one-dimensional sequence (a list or a
  numpy vector), with integer start and stop and an optional step: bounds
  are adjusted as CPython's `PySlice_AdjustIndices` does, then the sequence
  is walked from the adjusted start in strides of `step`.
 */
module Slicing {
  import opened Common

  /** One bound adjusted to a sequence of length `len`: a negative bound
      counts from the end, and the result is clamped to `0..len` for a
      positive step and to `-1..len-1` for a negative one. */
  function Adjust(x: int, len: nat, step: int): (r: int)
    requires step != 0
    ensures step > 0 ==> 0 <= r <= len
    ensures step < 0 ==> -1 <= r < len
    ensures -(len as int) <= x < 0 ==> r == x + len
    ensures 0 <= x < len ==> r == x
    ensures step > 0 && len <= x ==> r == len
  {
    if x < 0 then
      if x + len < 0 then (if step < 0 then -1 else 0) else x + len
    else if x >= len then
      (if step < 0 then len - 1 else len)
    else x
  }

  /** Entries at `i`, `i + step`, ... strictly below `stop`. */
  function Up<T>(s: seq<T>, i: int, stop: int, step: int): (r: seq<T>)
    requires step > 0 && 0 <= i && stop <= |s|
    ensures |r| == (if i < stop then (stop - i - 1) / step + 1 else 0)
    ensures forall k :: 0 <= k < |r| ==> 0 <= i + k * step < stop && r[k] == s[i + k * step]
    decreases stop - i
  {
    if i >= stop then []
    else
      var rest := Up(s, i + step, stop, step);
      StrideStep(stop - i - 1, step);
      assert forall k :: 1 <= k < |rest| + 1 ==> i + step + (k - 1) * step == i + k * step by {
        forall k | 1 <= k < |rest| + 1 {
          StrideDistributes(i, k, step);
        }
      }
      [s[i]] + rest
  }

  /** Entries at `i`, `i + step`, ... strictly above `stop`, for a negative step. */
  function Down<T>(s: seq<T>, i: int, stop: int, step: int): (r: seq<T>)
    requires step < 0 && i < |s| && -1 <= stop
    ensures |r| == (if stop < i then (i - stop - 1) / (-step) + 1 else 0)
    ensures forall k :: 0 <= k < |r| ==> stop < i + k * step < |s| && r[k] == s[i + k * step]
    decreases i - stop
  {
    if i <= stop then []
    else
      var rest := Down(s, i + step, stop, step);
      StrideStep(i - stop - 1, -step);
      assert forall k :: 1 <= k < |rest| + 1 ==> i + step + (k - 1) * step == i + k * step by {
        forall k | 1 <= k < |rest| + 1 {
          StrideDistributes(i, k, step);
        }
      }
      [s[i]] + rest
  }

  /** The count CPython's slice length formula gives one stride earlier. */
  lemma StrideStep(x: int, d: int)
    requires x >= 0 && d > 0
    ensures x - d >= 0 ==> (x - d) / d + 1 == x / d
    ensures x - d < 0 ==> x / d == 0
  {
    var q := x / d;
    assert x == q * d + x % d;
    if x - d >= 0 {
      assert x - d == (q - 1) * d + x % d;
      DivisionUnique(x - d, d, q - 1);
    } else {
      DivisionUnique(x, d, 0);
    }
  }

  /** Euclidean division is determined by the bracket `q * d <= x < (q + 1) * d`. */
  lemma DivisionUnique(x: int, d: int, q: int)
    requires d > 0 && q * d <= x < q * d + d
    ensures x / d == q
  {
    var q' := x / d;
    assert q' * d + x % d == x;
    if q' > q {
      assert (q + 1) * d == q * d + d;
      MultiplyMonotone(q + 1, q', d);
    } else if q' < q {
      MultiplyMonotone(q' + 1, q, d);
    }
  }

  lemma MultiplyMonotone(a: int, b: int, d: int)
    requires a <= b && d > 0
    ensures a * d <= b * d
  {
    assert b * d - a * d == (b - a) * d;
  }

  lemma StrideDistributes(i: int, k: int, step: int)
    ensures i + step + (k - 1) * step == i + k * step
  {
  }

  /** `s[start:stop:step]`; a zero step raises ValueError. The result has
      CPython's slice length and its `k`-th entry sits `k` strides past the
      adjusted start. */
  function PySlice<T>(s: seq<T>, start: int, stop: int, step: Option<int>): (r: Result<seq<T>>)
    ensures r.Failure? <==> step == Some(0)
    ensures r.Failure? ==> r.error == ZeroStep
    ensures r.Success? ==>
      var d := step.GetOr(1);
      var a := Adjust(start, |s|, d);
      var b := Adjust(stop, |s|, d);
      && (d > 0 ==> |r.value| == (if a < b then (b - a - 1) / d + 1 else 0))
      && (d < 0 ==> |r.value| == (if b < a then (a - b - 1) / (-d) + 1 else 0))
      && forall k :: 0 <= k < |r.value| ==> 0 <= a + k * d < |s| && r.value[k] == s[a + k * d]
  {
    var d := step.GetOr(1);
    if d == 0 then Failure(ZeroStep)
    else
      var a := Adjust(start, |s|, d);
      var b := Adjust(stop, |s|, d);
      Success(if d > 0 then Up(s, a, b, d) else Down(s, a, b, d))
  }

  /** With the default step, walking up in unit strides is ordinary
      contiguous sub-sequence extraction. */
  lemma {:induction false} UnitStrideIsSubsequence<T>(s: seq<T>, i: int, stop: int)
    requires 0 <= i && stop <= |s|
    ensures Up(s, i, stop, 1) == if i < stop then s[i..stop] else []
    decreases stop - i
  {
    if i < stop {
      UnitStrideIsSubsequence(s, i + 1, stop);
      assert s[i..stop] == [s[i]] + s[i + 1..stop];
    }
  }

  /** A slice with no step and bounds `0 <= a <= b` is `s[a..b]` with both
      bounds clamped to the length of `s`. */
  lemma ContiguousSlice<T>(s: seq<T>, a: int, b: int)
    requires 0 <= a <= b
    ensures PySlice(s, a, b, None) == Success(s[Clamp(a, |s|)..Clamp(b, |s|)])
  {
    var a' := Adjust(a, |s|, 1);
    var b' := Adjust(b, |s|, 1);
    assert a' == Clamp(a, |s|) && b' == Clamp(b, |s|);
    UnitStrideIsSubsequence(s, a', b');
    if a' == b' {
      assert s[a'..b'] == [];
    }
  }

  function Clamp(x: nat, len: nat): (r: nat)
    ensures r <= len && r <= x && (r == x || r == len)
  {
    if x < len then x else len
  }
}
