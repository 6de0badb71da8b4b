/**
  `BlueprintInput.__getitem__`: temporal slicing of every channel by a window
  expressed in the trigger channel's sample space, rescaled to each channel's
  own sampling frequency.
 */
module TemporalSlicing {
  import opened Common
  import opened Slicing
  import opened Blueprints

  /** The subscript given to the container: an integer (one instant) or a
      slice with optional start, stop and step. */
  datatype Index = Instant(i: int) | Range(start: Option<int>, stop: Option<int>, step: Option<int>)

  /** The window after `__getitem__`'s normalisation, still in the trigger
      channel's sample space; `instant` records that an integer was given. */
  datatype Request = Request(start: int, stop: int, step: Option<int>, instant: bool)

  /** The per-channel slice handed to `channel[start:stop:step]`. */
  datatype Window = Window(start: int, stop: int, step: Option<int>)

  /** Negative integers count back from the trigger length and become a
      one-sample window; a missing start is 0 and a missing stop the trigger
      length. The step of a range is kept. */
  function Normalise(idx: Index, triggerLength: nat): (r: Request)
    ensures idx.Instant? ==>
      && r.instant && r.step.None?
      && r.start == (if idx.i < 0 then triggerLength + idx.i else idx.i)
      && r.stop == r.start + 1
    ensures idx.Instant? && -(triggerLength as int) <= idx.i < triggerLength ==>
      r.start == ResolveIndex(triggerLength, idx.i).value
    ensures idx.Range? ==>
      && !r.instant && r.step == idx.step
      && r.start == idx.start.GetOr(0)
      && r.stop == idx.stop.GetOr(triggerLength)
  {
    match idx
    case Instant(i) =>
      var j := if i < 0 then triggerLength + i else i;
      Request(j, j + 1, None, true)
    case Range(a, b, step) =>
      Request(a.GetOr(0), b.GetOr(triggerLength), step, false)
  }

  /** The bounds check: a window starting at or past the trigger length, or
      ending past it, raises IndexError. */
  predicate InBounds(req: Request, triggerLength: nat) {
    !(req.start >= triggerLength || req.stop > triggerLength)
  }

  /** `int(np.floor(f_n / f_trig * x))`, evaluated only for a non-zero `x`
      (a zero bound is left as it is). */
  function Rescale(fn: real, ft: real, x: int): (r: int)
    requires x == 0 || ft != 0.0
    ensures x != 0 ==> r as real <= fn / ft * (x as real) < r as real + 1.0
    ensures x == 0 ==> r == 0
    ensures fn == ft ==> r == x
  {
    if x == 0 then 0
    else
      assert fn == ft ==> fn / ft * (x as real) == x as real;
      (fn / ft * (x as real)).Floor
  }

  /** Division by the trigger frequency happens as soon as one of start,
      stop and step is non-zero. */
  predicate Divides(req: Request) {
    req.start != 0 || req.stop != 0 || (req.step.Some? && req.step.value != 0)
  }

  /** The slice of one channel of frequency `fn` and length `channelLength`:
      start and stop rescaled and floored; an instant or a zero-width window
      is widened to one sample; otherwise a stop at the full trigger length
      becomes the channel's own length. A zero trigger frequency raises. */
  function ChannelWindow(fn: real, ft: real, triggerLength: nat, channelLength: nat, req: Request)
    : (r: Result<Window>)
    ensures r.Failure? <==> ft == 0.0 && Divides(req)
    ensures r.Failure? ==> r.error == ZeroDivisionError
    ensures r.Success? && ft != 0.0 ==>
      && r.value.start as real <= fn / ft * (req.start as real) < r.value.start as real + 1.0
      && (req.step.Some? && req.step.value != 0 ==>
            r.value.step.Some? &&
            r.value.step.value as real <= fn / ft * (req.step.value as real) < r.value.step.value as real + 1.0)
      && (req.step.None? ==> r.value.step.None?)
    ensures r.Success? && (req.instant || Rescale(fn, ft, req.start) == Rescale(fn, ft, req.stop)) ==>
      r.value.stop == r.value.start + 1
    ensures r.Success? && !req.instant && Rescale(fn, ft, req.start) != Rescale(fn, ft, req.stop) ==>
      r.value.stop == (if req.stop == triggerLength then channelLength else Rescale(fn, ft, req.stop))
    ensures r.Success? && fn == ft ==>
      && r.value.start == req.start
      && r.value.step == req.step
      && r.value.stop == (if req.instant || req.start == req.stop then req.start + 1
                          else if req.stop == triggerLength then channelLength else req.stop)
  {
    if ft == 0.0 && Divides(req) then Failure(ZeroDivisionError)
    else
      var start := Rescale(fn, ft, req.start);
      var stop := Rescale(fn, ft, req.stop);
      var step := match req.step
        case None => None
        case Some(s) => Some(Rescale(fn, ft, s));
      var stop' :=
        if start == stop || req.instant then start + 1
        else if triggerLength == req.stop then channelLength
        else stop;
      Success(Window(start, stop', step))
  }

  /** One channel sliced by its window. */
  function SliceChannel(channel: seq<real>, fn: real, ft: real, triggerLength: nat, req: Request)
    : (r: Result<seq<real>>)
    ensures r.Failure? ==> r.error == ZeroDivisionError || r.error == ZeroStep
  {
    var w :- ChannelWindow(fn, ft, triggerLength, |channel|, req);
    PySlice(channel, w.start, w.stop, w.step)
  }

  /** Channels `k..` sliced in order; the first failure is raised. */
  function SliceFrom(timeseries: seq<seq<real>>, frequencies: seq<real>, ft: real, triggerLength: nat,
                     req: Request, k: nat): (r: Result<seq<seq<real>>>)
    requires |frequencies| == |timeseries| && k <= |timeseries|
    ensures r.Failure? ==> r.error == ZeroDivisionError || r.error == ZeroStep
    ensures r.Success? <==>
      forall n :: k <= n < |timeseries| ==> SliceChannel(timeseries[n], frequencies[n], ft, triggerLength, req).Success?
    ensures r.Success? ==>
      && |r.value| == |timeseries| - k
      && forall n :: k <= n < |timeseries| ==>
           r.value[n - k] == SliceChannel(timeseries[n], frequencies[n], ft, triggerLength, req).value
    decreases |timeseries| - k
  {
    if k == |timeseries| then Success([])
    else
      var head :- SliceChannel(timeseries[k], frequencies[k], ft, triggerLength, req);
      var tail :- SliceFrom(timeseries, frequencies, ft, triggerLength, req, k + 1);
      Success([head] + tail)
  }

  /** The trigger index `__getitem__` works with: an unset trigger (or 0) is
      treated as channel 0. */
  function TriggerOrZero(c: Blueprint): int {
    c.triggerChannel.GetOr(0)
  }

  /** `container[idx]`: a new container whose every channel is sliced by the
      rescaled window; the metadata are carried over unchanged and the
      trigger index is the one the slicing used. */
  function GetItem(c: Blueprint, idx: Index): (r: Result<Blueprint>)
    requires c.WellFormed()
    ensures ResolveIndex(c.NChannels(), TriggerOrZero(c)).None? ==> r == Failure(IndexError)
    ensures ResolveIndex(c.NChannels(), TriggerOrZero(c)).Some? ==>
      var t := ResolveIndex(c.NChannels(), TriggerOrZero(c)).value;
      var req := Normalise(idx, |c.timeseries[t]|);
      && (!InBounds(req, |c.timeseries[t]|) <==> r == Failure(SliceOutOfBounds))
      && (r.Success? ==>
            && r.value.WellFormed()
            && r.value.NChannels() == c.NChannels()
            && r.value == c.(timeseries := r.value.timeseries, triggerChannel := Some(TriggerOrZero(c)))
            && forall n :: 0 <= n < c.NChannels() ==>
                 SliceChannel(c.timeseries[n], c.frequencies[n], c.frequencies[t], |c.timeseries[t]|, req)
                   == Success(r.value.timeseries[n]))
  {
    var trigger := TriggerOrZero(c);
    match ResolveIndex(c.NChannels(), trigger)
    case None => Failure(IndexError)
    case Some(t) =>
      var triggerLength := |c.timeseries[t]|;
      var req := Normalise(idx, triggerLength);
      if !InBounds(req, triggerLength) then Failure(SliceOutOfBounds)
      else
        var sliced :- SliceFrom(c.timeseries, c.frequencies, c.frequencies[t], triggerLength, req, 0);
        Success(c.(timeseries := sliced, triggerChannel := Some(trigger)))
  }

  /** The trigger channel resolved by `__getitem__`. */
  function TriggerPosition(c: Blueprint): (t: nat)
    requires ResolveIndex(c.NChannels(), TriggerOrZero(c)).Some?
    ensures t < c.NChannels()
  {
    ResolveIndex(c.NChannels(), TriggerOrZero(c)).value
  }

  /** Without a step, an in-bounds request on a container whose trigger
      frequency is non-zero never fails. */
  lemma GetItemSucceeds(c: Blueprint, idx: Index)
    requires c.WellFormed()
    requires ResolveIndex(c.NChannels(), TriggerOrZero(c)).Some?
    requires c.frequencies[TriggerPosition(c)] != 0.0
    requires InBounds(Normalise(idx, |c.timeseries[TriggerPosition(c)]|), |c.timeseries[TriggerPosition(c)]|)
    requires idx.Instant? || idx.step.None?
    ensures GetItem(c, idx).Success?
  {
  }

  /** A step is rescaled like the bounds, so a step of 1 on any channel
      slower than the trigger floors to 0 and that channel's slice raises
      ValueError, which aborts the whole subscript. */
  lemma SlowChannelUnitStepFails(c: Blueprint, start: int, stop: int, n: nat)
    requires c.WellFormed()
    requires ResolveIndex(c.NChannels(), TriggerOrZero(c)).Some?
    requires InBounds(Request(start, stop, Some(1), false), |c.timeseries[TriggerPosition(c)]|)
    requires n < c.NChannels()
    requires 0.0 < c.frequencies[n] < c.frequencies[TriggerPosition(c)]
    ensures GetItem(c, Range(Some(start), Some(stop), Some(1))) == Failure(ZeroStep)
  {
    var t := TriggerPosition(c);
    var ft := c.frequencies[t];
    var L := |c.timeseries[t]|;
    var req := Request(start, stop, Some(1), false);
    assert Normalise(Range(Some(start), Some(stop), Some(1)), L) == req;
    RatioBelowOne(c.frequencies[n], ft);
    assert Rescale(c.frequencies[n], ft, 1) == 0;
    assert SliceChannel(c.timeseries[n], c.frequencies[n], ft, L, req) == Failure(ZeroStep);
    SliceFromStopsAtZeroStep(c.timeseries, c.frequencies, ft, L, req, 0, n);
  }

  /** With a non-zero trigger frequency no channel can raise ZeroDivisionError,
      so one channel whose slice has a zero step makes the whole pass fail
      with ValueError, whatever the channels before it do. */
  lemma {:induction false} SliceFromStopsAtZeroStep(timeseries: seq<seq<real>>, frequencies: seq<real>, ft: real,
                                                   triggerLength: nat, req: Request, k: nat, n: nat)
    requires |frequencies| == |timeseries| && k <= n < |timeseries|
    requires ft != 0.0
    requires SliceChannel(timeseries[n], frequencies[n], ft, triggerLength, req) == Failure(ZeroStep)
    ensures SliceFrom(timeseries, frequencies, ft, triggerLength, req, k) == Failure(ZeroStep)
    decreases n - k
  {
    if k < n {
      SliceFromStopsAtZeroStep(timeseries, frequencies, ft, triggerLength, req, k + 1, n);
    }
  }

  lemma RatioBelowOne(a: real, b: real)
    requires 0.0 < a < b
    ensures 0.0 < a / b < 1.0
  {
    var q := a / b;
    assert q * b == a;
    assert b * q == a;
    if q >= 1.0 {
      ScaleMonotone(b, 1.0, q);
    } else if q <= 0.0 {
      ScaleMonotone(b, q, 0.0);
    }
  }

  lemma ScaleMonotone(ratio: real, x: real, y: real)
    requires ratio >= 0.0 && x <= y
    ensures ratio * x <= ratio * y
  {
    assert ratio * y - ratio * x == ratio * (y - x);
  }

  lemma ScaleStrictlyMonotone(ratio: real, x: real, y: real)
    requires ratio > 0.0 && x < y
    ensures ratio * x < ratio * y
  {
    assert ratio * y - ratio * x == ratio * (y - x);
  }

  /** One channel under an integer subscript `j` inside the trigger channel:
      a positive-frequency channel at least as long as its share of the
      trigger length yields exactly its sample at `floor(f_n / f_trig * j)`. */
  lemma InstantChannel(channel: seq<real>, fn: real, ft: real, triggerLength: nat, j: int)
    requires ft > 0.0 && fn > 0.0 && 0 <= j < triggerLength
    requires |channel| as real >= fn / ft * (triggerLength as real)
    ensures 0 <= Rescale(fn, ft, j) < |channel|
    ensures SliceChannel(channel, fn, ft, triggerLength, Request(j, j + 1, None, true))
            == Success([channel[Rescale(fn, ft, j)]])
  {
    InstantPosition(fn, ft, triggerLength, |channel|, j);
    var k := Rescale(fn, ft, j);
    var w := ChannelWindow(fn, ft, triggerLength, |channel|, Request(j, j + 1, None, true));
    assert w == Success(Window(k, k + 1, None));
    ContiguousSlice(channel, k, k + 1);
    assert channel[k..k + 1] == [channel[k]];
  }

  /** The floored position of an instant inside the trigger channel lies
      inside a channel at least as long as its share of the trigger length. */
  lemma InstantPosition(fn: real, ft: real, triggerLength: nat, channelLength: nat, j: int)
    requires ft > 0.0 && fn > 0.0 && 0 <= j < triggerLength
    requires channelLength as real >= fn / ft * (triggerLength as real)
    ensures 0 <= Rescale(fn, ft, j) < channelLength
  {
    var ratio := fn / ft;
    assert ratio > 0.0;
    ScaleMonotone(ratio, 0.0, j as real);
    ScaleStrictlyMonotone(ratio, j as real, triggerLength as real);
    var k := Rescale(fn, ft, j);
    assert (k as real) <= ratio * (j as real) || j == 0;
  }

  /** The floored bounds of a step-less range `[a:b]`: ordered, and the
      stop within a channel at least as long as its share of `b`. */
  lemma RangeBounds(fn: real, ft: real, a: int, b: int, channelLength: nat)
    requires ft > 0.0 && fn >= 0.0 && 0 <= a < b
    requires channelLength as real >= fn / ft * (b as real)
    ensures var first := Rescale(fn, ft, a);
            var last := Rescale(fn, ft, b);
            && 0 <= first <= last <= channelLength
            && (first == last ==> first < channelLength || first == 0)
            && (first == last && channelLength == 0 ==> fn == 0.0)
  {
    var ratio := fn / ft;
    assert ratio >= 0.0 by {
      if fn > 0.0 { assert ratio * ft == fn; }
    }
    var first := Rescale(fn, ft, a);
    var last := Rescale(fn, ft, b);
    ScaleMonotone(ratio, 0.0, a as real);
    ScaleMonotone(ratio, a as real, b as real);
    assert (last as real) <= ratio * (b as real);
    if ratio > 0.0 {
      ScaleStrictlyMonotone(ratio, a as real, b as real);
      ScaleStrictlyMonotone(ratio, 0.0, b as real);
    } else {
      assert fn == 0.0;
    }
  }

  /** One channel under a step-less range `[a:b]` that ends before the
      trigger's last sample: `floor(ratio*b) - floor(ratio*a)` samples, or one
      when the two floors coincide (none if the channel is empty). */
  lemma RangeChannel(channel: seq<real>, fn: real, ft: real, triggerLength: nat, a: int, b: int)
    requires ft > 0.0 && fn >= 0.0 && 0 <= a < b < triggerLength
    requires |channel| as real >= fn / ft * (b as real)
    ensures var first := Rescale(fn, ft, a);
            var last := Rescale(fn, ft, b);
            var r := SliceChannel(channel, fn, ft, triggerLength, Request(a, b, None, false));
            && 0 <= first <= last
            && r.Success?
            && |r.value| == (if first == last then (if |channel| == 0 then 0 else 1) else last - first)
  {
    var first := Rescale(fn, ft, a);
    var last := Rescale(fn, ft, b);
    RangeBounds(fn, ft, a, b, |channel|);
    var stop := if first == last then first + 1 else last;
    var w := ChannelWindow(fn, ft, triggerLength, |channel|, Request(a, b, None, false));
    assert w == Success(Window(first, stop, None));
    ContiguousSlice(channel, first, stop);
  }

  /** The trigger channel itself is sliced with the requested indices
      unchanged: `[a:b]` with `0 <= a < b <= L` yields its samples `a .. b-1`. */
  lemma TriggerRangeChannel(channel: seq<real>, ft: real, a: int, b: int)
    requires ft != 0.0 && 0 <= a < b <= |channel|
    ensures SliceChannel(channel, ft, ft, |channel|, Request(a, b, None, false)) == Success(channel[a..b])
  {
    ContiguousSlice(channel, a, b);
  }

  /** Under `[:]` a channel with at least one sample per trigger-length share
      comes back whole. */
  lemma FullChannel(channel: seq<real>, fn: real, ft: real, triggerLength: nat)
    requires ft != 0.0 && triggerLength > 0
    requires fn / ft * (triggerLength as real) >= 1.0
    ensures SliceChannel(channel, fn, ft, triggerLength, Request(0, triggerLength, None, false)) == Success(channel)
  {
    assert Rescale(fn, ft, triggerLength) >= 1;
    var w := ChannelWindow(fn, ft, triggerLength, |channel|, Request(0, triggerLength, None, false));
    assert w == Success(Window(0, |channel|, None));
    ContiguousSlice(channel, 0, |channel|);
    assert channel[0..|channel|] == channel;
  }

  /** What `GetItem` did to channel `n`, once it succeeded. */
  lemma GetItemChannel(c: Blueprint, idx: Index, n: nat)
    requires c.WellFormed()
    requires GetItem(c, idx).Success?
    requires n < c.NChannels()
    ensures ResolveIndex(c.NChannels(), TriggerOrZero(c)).Some?
    ensures var t := TriggerPosition(c);
            var req := Normalise(idx, |c.timeseries[t]|);
            SliceChannel(c.timeseries[n], c.frequencies[n], c.frequencies[t], |c.timeseries[t]|, req)
              == Success(GetItem(c, idx).value.timeseries[n])
  {
  }

  /** An integer subscript inside the trigger channel takes exactly one sample
      from every positive-frequency channel at least as long as its share of
      the trigger length: the sample at the floored rescaled position. */
  lemma InstantTakesOneSample(c: Blueprint, i: int, n: nat)
    requires c.WellFormed()
    requires ResolveIndex(c.NChannels(), TriggerOrZero(c)).Some?
    requires n < c.NChannels()
    requires c.frequencies[TriggerPosition(c)] > 0.0 && c.frequencies[n] > 0.0
    requires -(|c.timeseries[TriggerPosition(c)]| as int) <= i < |c.timeseries[TriggerPosition(c)]|
    requires |c.timeseries[n]| as real >=
             c.frequencies[n] / c.frequencies[TriggerPosition(c)] * (|c.timeseries[TriggerPosition(c)]| as real)
    ensures GetItem(c, Instant(i)).Success?
    ensures var t := TriggerPosition(c);
            var j := if i < 0 then |c.timeseries[t]| + i else i;
            var k := Rescale(c.frequencies[n], c.frequencies[t], j);
            && 0 <= k < |c.timeseries[n]|
            && GetItem(c, Instant(i)).value.timeseries[n] == [c.timeseries[n][k]]
  {
    var t := TriggerPosition(c);
    var L := |c.timeseries[t]|;
    var j := if i < 0 then L + i else i;
    var req := Request(j, j + 1, None, true);
    assert Normalise(Instant(i), L) == req;
    var fn := c.frequencies[n];
    var ft := c.frequencies[t];
    var channel := c.timeseries[n];
    InstantChannel(channel, fn, ft, L, j);
    GetItemSucceeds(c, Instant(i));
    GetItemChannel(c, Instant(i), n);
    var sliced := GetItem(c, Instant(i)).value.timeseries[n];
    assert SliceChannel(channel, fn, ft, L, req) == Success(sliced);
  }

  /** Slicing `[a:b]` without a step, with `0 <= a < b < L` in the trigger's
      sample space, keeps the trigger channel's samples `a .. b-1` and gives a
      channel at `ratio` times the trigger frequency
      `floor(ratio*b) - floor(ratio*a)` samples, or one when the floors meet. */
  lemma RangeIsProportional(c: Blueprint, a: int, b: int, n: nat)
    requires c.WellFormed()
    requires ResolveIndex(c.NChannels(), TriggerOrZero(c)).Some?
    requires n < c.NChannels()
    requires c.frequencies[TriggerPosition(c)] > 0.0 && c.frequencies[n] >= 0.0
    requires 0 <= a < b < |c.timeseries[TriggerPosition(c)]|
    requires |c.timeseries[n]| as real >= c.frequencies[n] / c.frequencies[TriggerPosition(c)] * (b as real)
    ensures GetItem(c, Range(Some(a), Some(b), None)).Success?
    ensures var t := TriggerPosition(c);
            var first := Rescale(c.frequencies[n], c.frequencies[t], a);
            var last := Rescale(c.frequencies[n], c.frequencies[t], b);
            var sliced := GetItem(c, Range(Some(a), Some(b), None)).value;
            && |sliced.timeseries[n]| ==
                 (if first == last then (if |c.timeseries[n]| == 0 then 0 else 1) else last - first)
            && sliced.timeseries[t] == c.timeseries[t][a..b]
  {
    var t := TriggerPosition(c);
    var L := |c.timeseries[t]|;
    var req := Request(a, b, None, false);
    assert Normalise(Range(Some(a), Some(b), None), L) == req;
    var fn := c.frequencies[n];
    var ft := c.frequencies[t];
    RangeChannel(c.timeseries[n], fn, ft, L, a, b);
    TriggerRangeChannel(c.timeseries[t], ft, a, b);
    GetItemSucceeds(c, Range(Some(a), Some(b), None));
    var r := GetItem(c, Range(Some(a), Some(b), None)).value;
    GetItemChannel(c, Range(Some(a), Some(b), None), n);
    assert SliceChannel(c.timeseries[n], fn, ft, L, req) == Success(r.timeseries[n]);
    GetItemChannel(c, Range(Some(a), Some(b), None), t);
    assert SliceChannel(c.timeseries[t], ft, ft, L, req) == Success(r.timeseries[t]);
  }

  /** Slicing `[:]` returns every channel whole, provided each channel holds
      at least one sample per trigger-length share: the stop at the full
      trigger length is clamped to each channel's own length. */
  lemma FullRangeKeepsChannels(c: Blueprint)
    requires c.WellFormed()
    requires ResolveIndex(c.NChannels(), TriggerOrZero(c)).Some?
    requires |c.timeseries[TriggerPosition(c)]| > 0
    requires c.frequencies[TriggerPosition(c)] != 0.0
    requires forall n :: 0 <= n < c.NChannels() ==>
               c.frequencies[n] / c.frequencies[TriggerPosition(c)] * (|c.timeseries[TriggerPosition(c)]| as real) >= 1.0
    ensures GetItem(c, Range(None, None, None)).Success?
    ensures GetItem(c, Range(None, None, None)).value.timeseries == c.timeseries
  {
    var t := TriggerPosition(c);
    var L := |c.timeseries[t]|;
    var req := Request(0, L, None, false);
    assert Normalise(Range(None, None, None), L) == req;
    var ft := c.frequencies[t];
    forall n | 0 <= n < c.NChannels()
      ensures SliceChannel(c.timeseries[n], c.frequencies[n], ft, L, req) == Success(c.timeseries[n])
    {
      FullChannel(c.timeseries[n], c.frequencies[n], ft, L);
    }
    GetItemSucceeds(c, Range(None, None, None));
    var r := GetItem(c, Range(None, None, None)).value;
    assert forall n :: 0 <= n < c.NChannels() ==> r.timeseries[n] == c.timeseries[n];
  }

  /** An integer subscript passes the bounds check exactly when it is below
      the trigger length. A negative one is counted back from the end once
      only, so one below `-trigger_length` stays negative, passes, and is
      counted back a second time by the channel's own slice. */
  lemma InstantInBounds(i: int, triggerLength: nat)
    ensures InBounds(Normalise(Instant(i), triggerLength), triggerLength) <==> i < triggerLength
  {
  }

  /** A one-channel recording `[1, 2, 3, 4, 5]` at 1 Hz. */
  function FiveSamples(): (c: Blueprint)
    ensures c.WellFormed()
  {
    Blueprint([[1.0, 2.0, 3.0, 4.0, 5.0]], [1.0], ["time"], ["s"], Some(0), None, None, 0.0)
  }

  /** `container[-7]` on five samples raises no IndexError: it becomes the
      window `[-2, -1)`, which the channel's slice reads as its fourth
      sample. */
  lemma InstantBelowLengthWraps()
    ensures GetItem(FiveSamples(), Instant(-7)) == Success(FiveSamples().(timeseries := [[4.0]]))
  {
    var c := FiveSamples();
    var channel := c.timeseries[0];
    assert ResolveIndex(1, 0) == Some(0);
    var req := Request(-2, -1, None, true);
    assert Normalise(Instant(-7), 5) == req;
    InstantInBounds(-7, 5);
    assert ChannelWindow(1.0, 1.0, 5, 5, req) == Success(Window(-2, -1, None));
    assert Adjust(-2, 5, 1) == 3 && Adjust(-1, 5, 1) == 4;
    var out := PySlice(channel, -2, -1, None);
    assert |out.value| == 1 && out.value[0] == channel[3];
    assert out.value == [4.0];
    assert SliceChannel(channel, 1.0, 1.0, 5, req) == Success([4.0]);
    SliceFromOne(channel, 1.0, 1.0, 5, req, [4.0]);
  }

  /** A one-channel container is sliced by slicing its channel. */
  lemma SliceFromOne(channel: seq<real>, fn: real, ft: real, triggerLength: nat, req: Request, out: seq<real>)
    requires SliceChannel(channel, fn, ft, triggerLength, req) == Success(out)
    ensures SliceFrom([channel], [fn], ft, triggerLength, req, 0) == Success([out])
  {
    var tail := SliceFrom([channel], [fn], ft, triggerLength, req, 1);
    assert tail == Success([]);
    assert [channel][0] == channel && [fn][0] == fn;
    assert [out] + tail.value == [out];
  }
}
