/**
  Deleting a set of positions from a list, the way `remove_channels` does it:
  one `del` per index, highest index first, so that earlier deletions never
  shift the positions still to be deleted.
 */
module Deletion {

  /** `del s[i]`. */
  function DeleteAt<T>(s: seq<T>, i: nat): (r: seq<T>)
    requires i < |s|
    ensures |r| == |s| - 1
    ensures forall j :: 0 <= j < i ==> r[j] == s[j]
    ensures forall j :: i <= j < |r| ==> r[j] == s[j + 1]
  {
    s[..i] + s[i + 1..]
  }

  /** The positions `k..n-1` that are not in `dropped`, in increasing order. */
  function KeptIndices(n: nat, dropped: set<nat>, k: nat): (r: seq<nat>)
    decreases n - k
  {
    if k >= n then []
    else (if k in dropped then [] else [k]) + KeptIndices(n, dropped, k + 1)
  }

  /** The entries of `s` from position `k` on whose position is not in `dropped`. */
  function KeepFrom<T>(s: seq<T>, dropped: set<nat>, k: nat): seq<T>
    decreases |s| - k
  {
    if k >= |s| then []
    else (if k in dropped then [] else [s[k]]) + KeepFrom(s, dropped, k + 1)
  }

  /** `s` without the entries at the positions in `dropped`; the survivors
      are exactly the entries at `KeptIndices`, in their original order. */
  function Without<T>(s: seq<T>, dropped: set<nat>): (r: seq<T>)
    ensures |r| == |KeptIndices(|s|, dropped, 0)|
    ensures forall i :: 0 <= i < |r| ==>
              KeptIndices(|s|, dropped, 0)[i] < |s| && r[i] == s[KeptIndices(|s|, dropped, 0)[i]]
  {
    KeepFromMatchesKept(s, dropped, 0);
    KeepFrom(s, dropped, 0)
  }

  lemma {:induction false} KeepFromMatchesKept<T>(s: seq<T>, dropped: set<nat>, k: nat)
    ensures |KeepFrom(s, dropped, k)| == |KeptIndices(|s|, dropped, k)|
    ensures forall i :: 0 <= i < |KeepFrom(s, dropped, k)| ==>
              KeptIndices(|s|, dropped, k)[i] < |s| &&
              KeepFrom(s, dropped, k)[i] == s[KeptIndices(|s|, dropped, k)[i]]
    decreases |s| - k
  {
    if k < |s| {
      KeepFromMatchesKept(s, dropped, k + 1);
    }
  }

  /** What `KeptIndices` contains: strictly increasing positions in `k..n-1`,
      none of them dropped, and every such position that is not dropped. */
  lemma {:induction false} KeptIndicesSpec(n: nat, dropped: set<nat>, k: nat)
    ensures forall i :: 0 <= i < |KeptIndices(n, dropped, k)| ==>
              k <= KeptIndices(n, dropped, k)[i] < n && KeptIndices(n, dropped, k)[i] !in dropped
    ensures forall i, j :: 0 <= i < j < |KeptIndices(n, dropped, k)| ==>
              KeptIndices(n, dropped, k)[i] < KeptIndices(n, dropped, k)[j]
    ensures forall p: nat :: k <= p < n && p !in dropped ==> p in KeptIndices(n, dropped, k)
    decreases n - k
  {
    if k < n {
      KeptIndicesSpec(n, dropped, k + 1);
    }
  }

  /** The deletion loop restricted to positions below `k`: visits `k-1`,
      `k-2`, ..., `0` and deletes each visited position that is in `dropped`. */
  function DeleteDescending<T>(s: seq<T>, dropped: set<nat>, k: nat): seq<T>
    requires k <= |s|
    decreases k
  {
    if k == 0 then s
    else DeleteDescending(if k - 1 in dropped then DeleteAt(s, k - 1) else s, dropped, k - 1)
  }

  /** Once the positions at and above `k` have been processed, the list is the
      untouched prefix followed by the survivors above it. */
  lemma {:induction false} DeleteDescendingFrom<T>(s: seq<T>, dropped: set<nat>, k: nat)
    requires k <= |s|
    ensures DeleteDescending(s[..k] + KeepFrom(s, dropped, k), dropped, k) == KeepFrom(s, dropped, 0)
    decreases k
  {
    if k > 0 {
      var t := s[..k] + KeepFrom(s, dropped, k);
      var rest := KeepFrom(s, dropped, k);
      assert KeepFrom(s, dropped, k - 1) == (if k - 1 in dropped then [] else [s[k - 1]]) + rest;
      if k - 1 in dropped {
        assert DeleteAt(t, k - 1) == s[..k - 1] + KeepFrom(s, dropped, k - 1);
      } else {
        assert t == s[..k - 1] + KeepFrom(s, dropped, k - 1);
      }
      DeleteDescendingFrom(s, dropped, k - 1);
    }
  }

  /** Deleting highest index first removes exactly the listed positions and
      keeps the relative order of the rest. */
  lemma DeleteDescendingIsWithout<T>(s: seq<T>, dropped: set<nat>)
    ensures DeleteDescending(s, dropped, |s|) == Without(s, dropped)
  {
    DeleteDescendingFrom(s, dropped, |s|);
    assert s[..|s|] + KeepFrom(s, dropped, |s|) == s;
  }

  /** Positions below `k` are the only dropped ones: everything from `k` on
      survives. */
  lemma {:induction false} KeepUndroppedFrom<T>(s: seq<T>, dropped: set<nat>, k: nat)
    requires k <= |s|
    requires forall p :: p in dropped ==> p < k
    ensures KeepFrom(s, dropped, k) == s[k..]
    decreases |s| - k
  {
    if k < |s| {
      KeepUndroppedFrom(s, dropped, k + 1);
      assert s[k..] == [s[k]] + s[k + 1..];
    }
  }

  /** Dropping the single position `m` from `k` on. */
  lemma {:induction false} KeepAllButFrom<T>(s: seq<T>, m: nat, k: nat)
    requires k <= m < |s|
    ensures KeepFrom(s, {m}, k) == s[k..m] + s[m + 1..]
    decreases m - k
  {
    if k == m {
      KeepUndroppedFrom(s, {m}, m + 1);
    } else {
      KeepAllButFrom(s, m, k + 1);
      assert s[k..m] == [s[k]] + s[k + 1..m];
    }
  }

  /** Removing no position changes nothing. */
  lemma WithoutNothing<T>(s: seq<T>)
    ensures Without(s, {}) == s
  {
    KeepUndroppedFrom(s, {}, 0);
    assert s[0..] == s;
  }

  /** Removing one position is a single `del`. */
  lemma WithoutOne<T>(s: seq<T>, m: nat)
    requires m < |s|
    ensures Without(s, {m}) == DeleteAt(s, m)
  {
    KeepAllButFrom(s, m, 0);
    assert s[0..m] == s[..m];
  }
}
