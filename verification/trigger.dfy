/**
  `check_trigger_amount`: counts the pulses of the trigger channel against a
  threshold, moves the time origin to the first pulse (earlier by the
  missing pulses when a repetition time is given) and records the results.
 */
module TriggerDetection {
  import opened Common
  import opened Pulses
  import opened Blueprints

  /** The time offset: the time of the first above-threshold sample, moved
      back by `(expected - found) * tr` when fewer pulses than expected were
      found and a non-zero repetition time is given. */
  function CorrectedOffset(firstPulseTime: real, found: nat, expected: int, tr: real): (offset: real)
    ensures expected != 0 && found < expected && tr != 0.0 ==>
              offset == firstPulseTime - ((expected - found) as real) * tr
    ensures !(expected != 0 && found < expected && tr != 0.0) ==> offset == firstPulseTime
  {
    if expected != 0 then
      if found > expected then firstPulseTime
      else if found < expected then
        (if tr != 0.0 then firstPulseTime - ((expected - found) as real) * tr else firstPulseTime)
      else firstPulseTime
    else firstPulseTime
  }

  /** `check_trigger_amount(thr, num_timepoints_expected, tr)` with an explicit
      threshold. Fails with TypeError when the trigger is unset, IndexError when
      the trigger index or the first-pulse index is out of range, and
      ValueError (EmptyArgMax) for an empty trigger channel. */
  function CheckTriggerAmount(c: Blueprint, thr: real, expected: int, tr: real): (r: Result<Blueprint>)
    ensures c.triggerChannel.None? ==> r == Failure(TypeError)
    ensures c.triggerChannel.Some? && ResolveIndex(c.NChannels(), c.triggerChannel.value).None? ==>
              r == Failure(IndexError)
    ensures c.triggerChannel.Some? && ResolveIndex(c.NChannels(), c.triggerChannel.value).Some? ==>
      var t := c.triggerChannel.value % c.NChannels();
      && (|c.timeseries[t]| == 0 ==> r == Failure(EmptyArgMax))
      && (|c.timeseries[t]| > 0 && ArgMax(Mask(c.timeseries[t], thr)) >= |c.timeseries[0]| ==>
            r == Failure(IndexError))
    ensures r.Success? ==>
      var t := c.triggerChannel.value % c.NChannels();
      var mask := Mask(c.timeseries[t], thr);
      var found := PulseCount(mask);
      && c.triggerChannel.Some?
      && |mask| > 0
      && ArgMax(mask) < |c.timeseries[0]|
      && r.value.numTimepointsFound == Some(found)
      && r.value.thr == Some(thr)
      && r.value.timeOffset == CorrectedOffset(c.timeseries[0][ArgMax(mask)], found, expected, tr)
      && |r.value.timeseries| == |c.timeseries|
      && |r.value.timeseries[0]| == |c.timeseries[0]|
      && (forall i :: 0 <= i < |c.timeseries[0]| ==>
            r.value.timeseries[0][i] == c.timeseries[0][i] - r.value.timeOffset)
      && (forall n :: 0 < n < |c.timeseries| ==> r.value.timeseries[n] == c.timeseries[n])
      && r.value.frequencies == c.frequencies
      && r.value.channelNames == c.channelNames
      && r.value.units == c.units
      && r.value.triggerChannel == c.triggerChannel
  {
    if c.triggerChannel.None? then Failure(TypeError)
    else
      match ResolveIndex(c.NChannels(), c.triggerChannel.value)
      case None => Failure(IndexError)
      case Some(t) =>
        var mask := Mask(c.timeseries[t], thr);
        var found := PulseCount(mask);
        if |mask| == 0 then Failure(EmptyArgMax)
        else
          var first := ArgMax(mask);
          var time := c.timeseries[0];
          if first >= |time| then Failure(IndexError)
          else
            var offset := CorrectedOffset(time[first], found, expected, tr);
            var shifted := seq(|time|, i requires 0 <= i < |time| => time[i] - offset);
            Success(c.(
              timeseries := c.timeseries[0 := shifted],
              numTimepointsFound := Some(found),
              thr := Some(thr),
              timeOffset := offset))
  }

  /** Detection fails only for an unset or out-of-range trigger, an empty
      trigger channel, or a first pulse past the end of the time channel. */
  lemma CheckTriggerAmountSucceeds(c: Blueprint, thr: real, expected: int, tr: real)
    requires c.triggerChannel.Some?
    requires -(c.NChannels() as int) <= c.triggerChannel.value < c.NChannels()
    requires |c.timeseries[c.triggerChannel.value % c.NChannels()]| > 0
    requires ArgMax(Mask(c.timeseries[c.triggerChannel.value % c.NChannels()], thr)) < |c.timeseries[0]|
    ensures CheckTriggerAmount(c, thr, expected, tr).Success?
  {
  }

  /** After detection the first pulse sits at time zero, or at
      `missing * tr` when missing leading pulses were corrected for. */
  lemma TimeOriginAtFirstPulse(c: Blueprint, thr: real, expected: int, tr: real)
    requires CheckTriggerAmount(c, thr, expected, tr).Success?
    ensures var r := CheckTriggerAmount(c, thr, expected, tr).value;
            var t := c.triggerChannel.value % c.NChannels();
            var first := ArgMax(Mask(c.timeseries[t], thr));
            var found := r.numTimepointsFound.value;
            && ((exists i :: 0 <= i < |c.timeseries[t]| && c.timeseries[t][i] > thr) ==>
                  c.timeseries[t][first] > thr)
            && r.timeseries[0][first] ==
                 (if expected != 0 && found < expected && tr != 0.0 then ((expected - found) as real) * tr else 0.0)
  {
    var r := CheckTriggerAmount(c, thr, expected, tr).value;
    var t := c.triggerChannel.value % c.NChannels();
    var mask := Mask(c.timeseries[t], thr);
    var first := ArgMax(mask);
    var found := PulseCount(mask);
    assert first < |c.timeseries[0]|;
    assert r.timeseries[0][first] == c.timeseries[0][first] - CorrectedOffset(c.timeseries[0][first], found, expected, tr);
    if exists i :: 0 <= i < |c.timeseries[t]| && c.timeseries[t][i] > thr {
      var i :| 0 <= i < |c.timeseries[t]| && c.timeseries[t][i] > thr;
      assert mask[i];
    }
  }

  /** Running detection a second time with the same arguments leaves the
      time channel as the first run left it (when the trigger is not the time
      channel itself): the first pulse is already at its target time, so the
      second offset is zero. */
  lemma {:induction false} SecondDetectionKeepsTime(c: Blueprint, thr: real, expected: int, tr: real)
    requires CheckTriggerAmount(c, thr, expected, tr).Success?
    requires c.triggerChannel.value % c.NChannels() != 0
    ensures var once := CheckTriggerAmount(c, thr, expected, tr).value;
            var twice := CheckTriggerAmount(once, thr, expected, tr);
            && twice.Success?
            && twice.value.timeseries == once.timeseries
            && twice.value.timeOffset == 0.0
            && twice.value.numTimepointsFound == once.numTimepointsFound
  {
    var once := CheckTriggerAmount(c, thr, expected, tr).value;
    var t := c.triggerChannel.value % c.NChannels();
    assert once.NChannels() == c.NChannels();
    assert once.timeseries[t] == c.timeseries[t];
    var twice := CheckTriggerAmount(once, thr, expected, tr).value;
    assert twice.timeOffset == 0.0;
    assert twice.timeseries[0] == once.timeseries[0];
    assert twice.timeseries == once.timeseries;
  }
}
