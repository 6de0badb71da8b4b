/**
  Trigger-pulse detection: the above-threshold mask of the trigger channel,
  its decomposition into maximal runs (what `itertools.groupby` yields), the
  pulse count as the number of runs of `true`, and the first above-threshold
  sample as numpy's `argmax` of the mask reports it.
 */
module Pulses {

  /** `trigger > thr`, sample by sample. */
  function Mask(trigger: seq<real>, thr: real): (m: seq<bool>)
    ensures |m| == |trigger|
    ensures forall i :: 0 <= i < |m| ==> (m[i] <==> trigger[i] > thr)
  {
    seq(|trigger|, i requires 0 <= i < |trigger| => trigger[i] > thr)
  }

  /** One group produced by `groupby`: a key and how many consecutive
      samples carry it. */
  datatype Group = Group(key: bool, size: nat)

  /** `size` copies of `key`. */
  function Repeat(key: bool, size: nat): (r: seq<bool>)
    ensures |r| == size && forall i :: 0 <= i < size ==> r[i] == key
  {
    seq(size, _ => key)
  }

  /** The samples a list of groups stands for. */
  function Expand(gs: seq<Group>): seq<bool> {
    if |gs| == 0 then [] else Expand(gs[..|gs| - 1]) + Repeat(gs[|gs| - 1].key, gs[|gs| - 1].size)
  }

  /** Groups are non-empty and neighbouring groups differ in key, i.e. every
      group is a maximal run. */
  ghost predicate Maximal(gs: seq<Group>) {
    && (forall i :: 0 <= i < |gs| ==> gs[i].size > 0)
    && (forall i :: 0 < i < |gs| ==> gs[i - 1].key != gs[i].key)
  }

  /** `groupby(mask)`: the maximal runs of `m`, in order, streaming one
      sample at a time. */
  function GroupBy(m: seq<bool>): (gs: seq<Group>)
    ensures Expand(gs) == m
    ensures Maximal(gs)
    ensures |gs| == 0 <==> |m| == 0
    ensures |m| > 0 ==> gs[|gs| - 1].key == m[|m| - 1]
    decreases |m|
  {
    if |m| == 0 then []
    else
      var gs := GroupBy(m[..|m| - 1]);
      var x := m[|m| - 1];
      assert m == m[..|m| - 1] + [x];
      if |gs| > 0 && gs[|gs| - 1].key == x then
        GrowLastGroup(gs, x);
        Grown(gs)
      else
        StartNewGroup(gs, x);
        gs + [Group(x, 1)]
  }

  /** `gs` with its last group one sample longer. */
  function Grown(gs: seq<Group>): seq<Group>
    requires |gs| > 0
  {
    gs[..|gs| - 1] + [Group(gs[|gs| - 1].key, gs[|gs| - 1].size + 1)]
  }

  lemma GrowLastGroup(gs: seq<Group>, x: bool)
    requires Maximal(gs) && |gs| > 0 && gs[|gs| - 1].key == x
    ensures Expand(Grown(gs)) == Expand(gs) + [x]
    ensures Maximal(Grown(gs))
    ensures Grown(gs)[|Grown(gs)| - 1].key == x
  {
    var last := gs[|gs| - 1];
    var merged := Grown(gs);
    assert merged[..|merged| - 1] == gs[..|gs| - 1];
    assert forall i :: 0 <= i < |gs| - 1 ==> merged[i] == gs[i];
    assert Repeat(x, last.size + 1) == Repeat(x, last.size) + [x];
  }

  lemma StartNewGroup(gs: seq<Group>, x: bool)
    requires Maximal(gs) && (|gs| == 0 || gs[|gs| - 1].key != x)
    ensures Expand(gs + [Group(x, 1)]) == Expand(gs) + [x]
    ensures Maximal(gs + [Group(x, 1)])
  {
    ExpandAppended(gs, Group(x, 1));
    assert Repeat(x, 1) == [x];
    MaximalAppended(gs, Group(x, 1));
  }

  lemma MaximalAppended(gs: seq<Group>, g: Group)
    requires Maximal(gs) && g.size > 0 && (|gs| == 0 || gs[|gs| - 1].key != g.key)
    ensures Maximal(gs + [g])
  {
    var extended := gs + [g];
    assert forall i :: 0 <= i < |gs| ==> extended[i] == gs[i];
    assert extended[|gs|] == g;
  }

  lemma ExpandAppended(gs: seq<Group>, g: Group)
    ensures Expand(gs + [g]) == Expand(gs) + Repeat(g.key, g.size)
  {
    assert (gs + [g])[..|gs|] == gs;
  }

  /** Number of groups whose key is `true`. */
  function CountTrueGroups(gs: seq<Group>): nat {
    if |gs| == 0 then 0
    else CountTrueGroups(gs[..|gs| - 1]) + (if gs[|gs| - 1].key then 1 else 0)
  }

  /** The pulse count of `check_trigger_amount`: the number of `groupby`
      groups whose key is true. */
  function PulseCount(m: seq<bool>): nat {
    CountTrueGroups(GroupBy(m))
  }

  /** A pulse begins at `i`: the sample is above threshold and its
      predecessor, if any, is not. */
  predicate RunStart(m: seq<bool>, i: nat)
    requires i < |m|
  {
    m[i] && (i == 0 || !m[i - 1])
  }

  /** Number of pulse beginnings among the first `k` samples; an independent
      definition of the pulse count that does not mention groups. */
  function RunStarts(m: seq<bool>, k: nat): nat
    requires k <= |m|
  {
    if k == 0 then 0 else RunStarts(m, k - 1) + (if RunStart(m, k - 1) then 1 else 0)
  }

  /** Number of above-threshold samples among the first `k`. */
  function TrueCount(m: seq<bool>, k: nat): nat
    requires k <= |m|
  {
    if k == 0 then 0 else TrueCount(m, k - 1) + (if m[k - 1] then 1 else 0)
  }

  /** Run starts only look backwards, so extending the mask does not change
      the count over a prefix. */
  lemma {:induction false} RunStartsOfPrefix(m: seq<bool>, n: nat, k: nat)
    requires k <= n <= |m|
    ensures RunStarts(m[..n], k) == RunStarts(m, k)
    decreases k
  {
    if k > 0 {
      RunStartsOfPrefix(m, n, k - 1);
    }
  }

  /** The `groupby` count equals the number of indices where a run of
      above-threshold samples begins. */
  lemma {:induction false} PulseCountIsRunStarts(m: seq<bool>)
    ensures PulseCount(m) == RunStarts(m, |m|)
    decreases |m|
  {
    if |m| > 0 {
      var p := m[..|m| - 1];
      var x := m[|m| - 1];
      var gs := GroupBy(p);
      PulseCountIsRunStarts(p);
      RunStartsOfPrefix(m, |m| - 1, |m| - 1);
      GroupByStep(m);
      if |gs| > 0 && gs[|gs| - 1].key == x {
        CountGrown(gs);
      } else {
        CountAppended(gs, Group(x, 1));
      }
    }
  }

  /** One more sample either lengthens the last group or opens a new one. */
  lemma GroupByStep(m: seq<bool>)
    requires |m| > 0
    ensures var gs := GroupBy(m[..|m| - 1]);
            var x := m[|m| - 1];
            GroupBy(m) == if |gs| > 0 && gs[|gs| - 1].key == x then Grown(gs) else gs + [Group(x, 1)]
    ensures |m| > 1 && GroupBy(m[..|m| - 1])[|GroupBy(m[..|m| - 1])| - 1].key == m[|m| - 1]
            ==> !RunStart(m, |m| - 1)
    ensures (|m| == 1 || GroupBy(m[..|m| - 1])[|GroupBy(m[..|m| - 1])| - 1].key != m[|m| - 1])
            ==> (RunStart(m, |m| - 1) <==> m[|m| - 1])
  {
  }

  lemma CountAppended(gs: seq<Group>, g: Group)
    ensures CountTrueGroups(gs + [g]) == CountTrueGroups(gs) + (if g.key then 1 else 0)
  {
    assert (gs + [g])[..|gs|] == gs;
  }

  /** Lengthening a group does not change how many groups are pulses. */
  lemma CountGrown(gs: seq<Group>)
    requires |gs| > 0
    ensures CountTrueGroups(Grown(gs)) == CountTrueGroups(gs)
  {
    var last := gs[|gs| - 1];
    CountAppended(gs[..|gs| - 1], Group(last.key, last.size + 1));
  }

  /** A pulse needs at least one above-threshold sample, and there are pulses
      exactly when some sample is above threshold. */
  lemma {:induction false} RunStartsBounds(m: seq<bool>, k: nat)
    requires k <= |m|
    ensures RunStarts(m, k) <= TrueCount(m, k)
    ensures RunStarts(m, k) == 0 <==> forall i :: 0 <= i < k ==> !m[i]
    decreases k
  {
    if k > 0 {
      RunStartsBounds(m, k - 1);
      if RunStarts(m, k - 1) == 0 && m[k - 1] {
        assert RunStart(m, k - 1);
      }
    }
  }

  /** The pulse count is at most the number of above-threshold samples, and
      it is zero exactly when no sample exceeds the threshold. */
  lemma PulseCountBounds(trigger: seq<real>, thr: real)
    ensures PulseCount(Mask(trigger, thr)) <= TrueCount(Mask(trigger, thr), |trigger|)
    ensures PulseCount(Mask(trigger, thr)) == 0 <==> forall i :: 0 <= i < |trigger| ==> trigger[i] <= thr
  {
    var m := Mask(trigger, thr);
    PulseCountIsRunStarts(m);
    RunStartsBounds(m, |m|);
  }

  /** Two separate pulses, five samples above threshold: the count is 2. */
  lemma PulseCountExample()
    ensures PulseCount(Mask([0.0, 0.0, 3.0, 3.0, 0.0, 0.0, 3.0, 3.0, 3.0, 0.0], 2.5)) == 2
  {
    var m := Mask([0.0, 0.0, 3.0, 3.0, 0.0, 0.0, 3.0, 3.0, 3.0, 0.0], 2.5);
    assert m == [false, false, true, true, false, false, true, true, true, false];
    PulseCountIsRunStarts(m);
    assert RunStarts(m, 2) == 0;
    assert RunStarts(m, 4) == 1;
    assert RunStarts(m, 6) == 1;
    assert RunStarts(m, 8) == 2;
  }

  /** The pulse count computed in one pass over the trigger channel, keeping
      the key of the previous sample as `groupby` does. */
  method CountPulses(trigger: seq<real>, thr: real) returns (count: nat)
    ensures count == PulseCount(Mask(trigger, thr))
  {
    ghost var m := Mask(trigger, thr);
    count := 0;
    var previous := false;
    var i := 0;
    while i < |trigger|
      invariant 0 <= i <= |trigger|
      invariant count == RunStarts(m, i)
      invariant i > 0 ==> previous == m[i - 1]
      invariant i == 0 ==> !previous
    {
      var above := trigger[i] > thr;
      if above && !previous {
        count := count + 1;
      }
      previous := above;
      i := i + 1;
    }
    PulseCountIsRunStarts(m);
  }

  /** numpy's `argmax` of a boolean mask: the first `true`, or 0 when there
      is none. Position `k` on: searches from `k`. */
  function FirstTrueFrom(m: seq<bool>, k: nat): (r: nat)
    requires |m| > 0
    ensures r < |m|
    ensures (exists i :: k <= i < |m| && m[i]) ==> k <= r && m[r] && forall j :: k <= j < r ==> !m[j]
    ensures (forall i :: k <= i < |m| ==> !m[i]) ==> r == 0
    decreases |m| - k
  {
    if k >= |m| then 0
    else if m[k] then k
    else FirstTrueFrom(m, k + 1)
  }

  /** `mask.argmax()`: the index of the first above-threshold sample, or 0
      when no sample is above threshold. */
  function ArgMax(m: seq<bool>): (r: nat)
    requires |m| > 0
    ensures r < |m|
    ensures (exists i :: 0 <= i < |m| && m[i]) ==> m[r] && forall j :: 0 <= j < r ==> !m[j]
    ensures (forall i :: 0 <= i < |m| ==> !m[i]) ==> r == 0
  {
    FirstTrueFrom(m, 0)
  }
}
