/**
  Three places where `physio_obj.py` does not do what its documentation and
  surrounding code say it should. Each is modelled here as the code reads,
  next to a lemma that shows the difference from the intended behaviour,
  which the rest of the model implements.
 */
module AsWritten {
  import opened Common
  import Deletion
  import opened Blueprints
  import opened TemporalSlicing
  import opened SingleFrequencyView

  // ---------------------------------------------------------------------
  // remove_channels
  // ---------------------------------------------------------------------

  /** `remove_channels` as written: its first statement calls
      `np.as_array`, which numpy does not define, so every call raises
      AttributeError before anything is deleted. */
  function RemoveChannelsAsWritten(c: Blueprint, indices: set<nat>): (r: Result<Blueprint>)
    ensures r.Failure? && r.error == AttributeError
  {
    Failure(AttributeError)
  }

  /** Removing no channel at all, which the intended method does without
      complaint, already fails as written. */
  lemma RemoveChannelsAsWrittenNeverRemoves(c: Blueprint)
    requires c.WellFormed()
    ensures RemoveChannels(c, {}) == Success(c)
    ensures RemoveChannelsAsWritten(c, {}) == Failure(AttributeError)
  {
    Deletion.WithoutNothing(c.timeseries);
    Deletion.WithoutNothing(c.frequencies);
    Deletion.WithoutNothing(c.channelNames);
    Deletion.WithoutNothing(c.units);
  }

  // ---------------------------------------------------------------------
  // to_frequency
  // ---------------------------------------------------------------------

  /** `to_frequency` as written: an absent frequency builds its ValueError
      message with `', '.join` over numbers, which raises TypeError unless
      the list is empty (then the ValueError itself is raised); a present
      frequency reaches `np.where(self.frequencies != frequencies)`, where
      `frequencies` is an undefined name (NameError). */
  function ToFrequencyAsWritten(c: Blueprint, f: real): (r: Result<SingleFrequency>)
    ensures r.Failure?
    ensures f in c.frequencies ==> r.error == NameError
    ensures f !in c.frequencies ==> r.error == (if |c.frequencies| == 0 then FrequencyAbsent else TypeError)
  {
    if f !in c.frequencies then
      if |c.frequencies| == 0 then Failure(FrequencyAbsent) else Failure(TypeError)
    else Failure(NameError)
  }

  /** Whenever the intended conversion produces a view, the code as written
      raises NameError instead; for an absent frequency it raises TypeError
      where ValueError is intended. */
  lemma ToFrequencyAsWrittenDiffers(c: Blueprint, f: real)
    requires c.WellFormed()
    ensures ToFrequency(c, f).Success? ==> ToFrequencyAsWritten(c, f) == Failure(NameError)
    ensures f !in c.frequencies && |c.frequencies| > 0 ==>
              && ToFrequency(c, f) == Failure(FrequencyAbsent)
              && ToFrequencyAsWritten(c, f) == Failure(TypeError)
  {
  }

  /** `to_frequency` with its selection repaired but its last line as
      written: the view is built by the constructor with `filename=None`,
      which its `is_valid(filename, str)` rejects with AttributeError. So
      this version never succeeds: it fails as the intended one does, or
      with AttributeError where the intended one produces a view. */
  function ToFrequencyCheckedFilename(c: Blueprint, f: real): (r: Result<SingleFrequency>)
    requires c.WellFormed()
    ensures r.Failure?
    ensures f !in c.frequencies ==> r == Failure(FrequencyAbsent)
    ensures ToFrequency(c, f).Failure? ==> r == ToFrequency(c, f)
    ensures f in c.frequencies && ToFrequency(c, f).Success? ==> r == Failure(AttributeError)
  {
    if f !in c.frequencies then Failure(FrequencyAbsent)
    else
      var kept := RemoveChannels(c, OtherFrequencies(c, f)).value;
      KeptAtFrequency(c, f);
      var rows :- Stack(kept.timeseries);
      var channels := kept.timeseries;
      NewSingleFrequency(rows, |channels|, f, kept.channelNames, kept.units, channels[0][0], None)
  }

  // ---------------------------------------------------------------------
  // __getitem__
  // ---------------------------------------------------------------------

  /** `__getitem__`'s normalisation as written: a missing start is filled in
      by rebuilding the slice as `slice(0, stop)` and a missing stop by
      `slice(start, trigger_length)`, and both rebuilt slices lose the step. */
  function NormaliseAsWritten(idx: Index, triggerLength: nat): (r: Request)
    ensures idx.Instant? ==> r == Normalise(idx, triggerLength)
    ensures idx.Range? && idx.start.Some? && idx.stop.Some? ==> r == Normalise(idx, triggerLength)
    ensures idx.Range? && (idx.start.None? || idx.stop.None?) ==>
              r == Normalise(idx, triggerLength).(step := None)
  {
    match idx
    case Instant(_) => Normalise(idx, triggerLength)
    case Range(start, stop, step) =>
      var filledStart := if start.None? then Range(Some(0), stop, None) else idx;
      var filled := if filledStart.stop.None? then Range(filledStart.start, Some(triggerLength), None) else filledStart;
      Request(filled.start.value, filled.stop.value, filled.step, false)
  }

  /** The index the code as written effectively slices with: the given one,
      minus its step when start or stop is missing. */
  function DropStep(idx: Index): (r: Index)
    ensures idx.Range? && (idx.start.None? || idx.stop.None?) ==> r == idx.(step := None)
    ensures !(idx.Range? && (idx.start.None? || idx.stop.None?)) ==> r == idx
  {
    if idx.Range? && (idx.start.None? || idx.stop.None?) then idx.(step := None) else idx
  }

  /** `container[idx]` as written: the intended slicing, fed the request of
      `NormaliseAsWritten`. */
  function GetItemAsWritten(c: Blueprint, idx: Index): (r: Result<Blueprint>)
    requires c.WellFormed()
    ensures r == GetItem(c, DropStep(idx))
  {
    var trigger := TriggerOrZero(c);
    match ResolveIndex(c.NChannels(), trigger)
    case None => Failure(IndexError)
    case Some(t) =>
      var triggerLength := |c.timeseries[t]|;
      var req := NormaliseAsWritten(idx, triggerLength);
      assert req == Normalise(DropStep(idx), triggerLength);
      if !InBounds(req, triggerLength) then Failure(SliceOutOfBounds)
      else
        var sliced :- SliceFrom(c.timeseries, c.frequencies, c.frequencies[t], triggerLength, req, 0);
        Success(c.(timeseries := sliced, triggerChannel := Some(trigger)))
  }

  /** A one-channel recording `[1, 2, 3, 4]` at 1 Hz. */
  function Ramp(): Blueprint {
    Blueprint([[1.0, 2.0, 3.0, 4.0]], [1.0], ["time"], ["s"], Some(0), None, None, 0.0)
  }

  /** `container[::2]` should keep every other sample, `[1, 3]`; as written
      it returns all four. */
  lemma EveryOtherSampleIgnored()
    ensures GetItem(Ramp(), Range(None, None, Some(2))) == Success(Ramp().(timeseries := [[1.0, 3.0]]))
    ensures GetItemAsWritten(Ramp(), Range(None, None, Some(2))) == Success(Ramp())
  {
    var c := Ramp();
    var channel := c.timeseries[0];
    assert ResolveIndex(1, 0) == Some(0);
    var strided := Request(0, 4, Some(2), false);
    assert Normalise(Range(None, None, Some(2)), 4) == strided;
    RampStrided();
    SliceFromOne(channel, 1.0, 1.0, 4, strided, [1.0, 3.0]);
    var whole := Request(0, 4, None, false);
    assert Normalise(Range(None, None, None), 4) == whole;
    RampWhole();
    SliceFromOne(channel, 1.0, 1.0, 4, whole, channel);
  }

  lemma RampStrided()
    ensures SliceChannel([1.0, 2.0, 3.0, 4.0], 1.0, 1.0, 4, Request(0, 4, Some(2), false)) == Success([1.0, 3.0])
  {
    var channel := [1.0, 2.0, 3.0, 4.0];
    assert ChannelWindow(1.0, 1.0, 4, 4, Request(0, 4, Some(2), false)) == Success(Window(0, 4, Some(2)));
    assert Slicing.Up(channel, 4, 4, 2) == [];
    assert Slicing.Up(channel, 2, 4, 2) == [3.0];
    assert Slicing.Up(channel, 0, 4, 2) == [1.0, 3.0];
  }

  lemma RampWhole()
    ensures SliceChannel([1.0, 2.0, 3.0, 4.0], 1.0, 1.0, 4, Request(0, 4, None, false)) == Success([1.0, 2.0, 3.0, 4.0])
  {
    var channel := [1.0, 2.0, 3.0, 4.0];
    assert ChannelWindow(1.0, 1.0, 4, 4, Request(0, 4, None, false)) == Success(Window(0, 4, None));
    Slicing.ContiguousSlice(channel, 0, 4);
    assert channel[0..4] == channel;
  }
}
