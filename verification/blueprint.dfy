/**
  `BlueprintInput`, the multi-frequency channel container: one time series
  per channel (channel 0 is time), and parallel lists of frequencies, names
  and units, plus the trigger index and the results of trigger detection.
 */
module Blueprints {
  import opened Common
  import opened Padding
  import opened Deletion

  datatype Blueprint = Blueprint(
    timeseries: seq<seq<real>>,
    frequencies: seq<real>,
    channelNames: seq<string>,
    units: seq<string>,
    triggerChannel: Option<int>,
    numTimepointsFound: Option<int>,
    thr: Option<real>,
    timeOffset: real)
  {
    /** `n_channels`: the number of time series. */
    function NChannels(): nat {
      |timeseries|
    }

    /** The parallel lists all have one entry per channel. */
    predicate WellFormed() {
      && |frequencies| == |timeseries|
      && |channelNames| == |timeseries|
      && |units| == |timeseries|
    }
  }

  /** `BlueprintInput(...)`: frequencies, names and units are fitted to the
      number of channels with the tokens 0.0, "unknown" and "[]"; fitting an
      empty list to a non-zero channel count raises IndexError. */
  function NewBlueprint(timeseries: seq<seq<real>>, frequencies: seq<real>, channelNames: seq<string>,
                        units: seq<string>, triggerChannel: int, numTimepointsFound: Option<int>,
                        thr: Option<real>, timeOffset: real): (r: Result<Blueprint>)
    ensures r.Success? <==>
      |timeseries| == 0 || (|frequencies| > 0 && |channelNames| > 0 && |units| > 0)
    ensures r.Failure? ==> r.error == IndexError
    ensures r.Success? ==>
      && r.value.WellFormed()
      && r.value.NChannels() == |timeseries|
      && r.value.timeseries == timeseries
      && FittedTo(r.value.frequencies, frequencies, |timeseries|, 0.0)
      && FittedTo(r.value.channelNames, channelNames, |timeseries|, "unknown")
      && FittedTo(r.value.units, units, |timeseries|, "[]")
      && r.value.triggerChannel == Some(triggerChannel)
      && r.value.numTimepointsFound == numTimepointsFound
      && r.value.thr == thr
      && r.value.timeOffset == timeOffset
  {
    var f :- HasSize(frequencies, |timeseries|, 0.0);
    var n :- HasSize(channelNames, |timeseries|, "unknown");
    var u :- HasSize(units, |timeseries|, "[]");
    Success(Blueprint(timeseries, f, n, u, Some(triggerChannel), numTimepointsFound, thr, timeOffset))
  }

  /** Lists that already have one entry per channel pass through the
      constructor unchanged; this is how `__getitem__` rebuilds a container. */
  lemma NewBlueprintOfWellFormed(c: Blueprint, trigger: int)
    requires c.WellFormed()
    ensures NewBlueprint(c.timeseries, c.frequencies, c.channelNames, c.units, trigger,
                         c.numTimepointsFound, c.thr, c.timeOffset)
            == Success(c.(triggerChannel := Some(trigger)))
  {
    var r := NewBlueprint(c.timeseries, c.frequencies, c.channelNames, c.units, trigger,
                          c.numTimepointsFound, c.thr, c.timeOffset);
    if |c.timeseries| > 0 {
      assert |c.frequencies| > 0 && |c.channelNames| > 0 && |c.units| > 0;
    }
    assert r.value.frequencies == c.frequencies;
    assert r.value.channelNames == c.channelNames;
    assert r.value.units == c.units;
  }

  /** Position of the first occurrence of `x` in `s` (`list.index`). */
  function IndexOf(s: seq<string>, x: string): (k: nat)
    requires x in s
    ensures k < |s| && s[k] == x && x !in s[..k]
  {
    if s[0] == x then 0
    else
      var k := IndexOf(s[1..], x) + 1;
      assert s[..k] == [s[0]] + s[1..][..k - 1];
      k
  }

  /** The names that follow "time" after renaming: `newNames` with its first
      "time" entry, if any, taken out. */
  function NamesAfterTime(newNames: seq<string>): seq<string> {
    if "time" in newNames then DeleteAt(newNames, IndexOf(newNames, "time")) else newNames
  }

  /** `rename_channels`: "time" is moved to the front and the list is fitted
      to the channel count with "unknown". */
  function RenameChannels(c: Blueprint, newNames: seq<string>): (r: Blueprint)
    ensures r == c.(channelNames := r.channelNames)
    ensures FittedTo(r.channelNames, ["time"] + NamesAfterTime(newNames), c.NChannels(), "unknown")
    ensures c.NChannels() > 0 ==> r.channelNames[0] == "time"
    ensures c.WellFormed() ==> r.WellFormed()
  {
    var named := ["time"] + NamesAfterTime(newNames);
    c.(channelNames := HasSize(named, c.NChannels(), "unknown").value)
  }

  /** Renaming with the names a renaming produced changes nothing. */
  lemma RenameIdempotent(c: Blueprint, newNames: seq<string>)
    ensures RenameChannels(RenameChannels(c, newNames), RenameChannels(c, newNames).channelNames)
            == RenameChannels(c, newNames)
  {
    var r := RenameChannels(c, newNames);
    var names := r.channelNames;
    if c.NChannels() > 0 {
      assert names[0] == "time";
      assert IndexOf(names, "time") == 0;
      assert ["time"] + NamesAfterTime(names) == names;
    } else {
      assert names == [];
    }
  }

  /** The entries `return_index` reports for one channel. */
  datatype ChannelEntry = ChannelEntry(
    timeseries: seq<real>, nChannels: nat, frequency: real, name: string, unit: string)

  /** `return_index`: the channel at Python subscript `idx`. */
  function ReturnIndex(c: Blueprint, idx: int): (r: Result<ChannelEntry>)
    requires c.WellFormed()
    ensures r.Success? <==> -(c.NChannels() as int) <= idx < c.NChannels()
    ensures r.Failure? ==> r.error == IndexError
    ensures r.Success? ==>
      var k := idx % c.NChannels();
      r.value == ChannelEntry(c.timeseries[k], c.NChannels(), c.frequencies[k], c.channelNames[k], c.units[k])
  {
    match ResolveIndex(c.NChannels(), idx)
    case None => Failure(IndexError)
    case Some(k) =>
      Success(ChannelEntry(c.timeseries[k], c.NChannels(), c.frequencies[k], c.channelNames[k], c.units[k]))
  }

  /** `remove_channels`, as its Notes describe it: every listed channel is
      deleted from the four lists, highest index first; an index past the
      last channel raises IndexError before anything is deleted; removing the
      trigger channel unsets the trigger index. */
  function RemoveChannels(c: Blueprint, indices: set<nat>): (r: Result<Blueprint>)
    requires c.WellFormed()
    ensures r.Success? <==> forall i :: i in indices ==> i < c.NChannels()
    ensures r.Failure? ==> r.error == IndexError
    ensures r.Success? ==>
      && r.value.WellFormed()
      && r.value.timeseries == Without(c.timeseries, indices)
      && r.value.frequencies == Without(c.frequencies, indices)
      && r.value.channelNames == Without(c.channelNames, indices)
      && r.value.units == Without(c.units, indices)
      && r.value.triggerChannel ==
           (if c.triggerChannel.Some? && c.triggerChannel.value in indices then None else c.triggerChannel)
      && r.value.numTimepointsFound == c.numTimepointsFound
      && r.value.thr == c.thr
      && r.value.timeOffset == c.timeOffset
  {
    if exists i :: i in indices && i >= c.NChannels() then Failure(IndexError)
    else
      DeleteDescendingIsWithout(c.timeseries, indices);
      DeleteDescendingIsWithout(c.frequencies, indices);
      DeleteDescendingIsWithout(c.channelNames, indices);
      DeleteDescendingIsWithout(c.units, indices);
      var trigger :=
        if c.triggerChannel.Some? && c.triggerChannel.value >= 0 && c.triggerChannel.value in indices
        then None else c.triggerChannel;
      Success(c.(
        timeseries := DeleteDescending(c.timeseries, indices, |c.timeseries|),
        frequencies := DeleteDescending(c.frequencies, indices, |c.frequencies|),
        channelNames := DeleteDescending(c.channelNames, indices, |c.channelNames|),
        units := DeleteDescending(c.units, indices, |c.units|),
        triggerChannel := trigger))
  }

  /** The surviving channels are exactly the unlisted ones, each keeping its
      series, frequency, name and unit together, in their original order. */
  lemma RemoveChannelsKeepsUnlisted(c: Blueprint, indices: set<nat>)
    requires c.WellFormed()
    requires forall i :: i in indices ==> i < c.NChannels()
    ensures var r := RemoveChannels(c, indices).value;
            var kept := KeptIndices(c.NChannels(), indices, 0);
            && r.NChannels() == |kept|
            && (forall i :: 0 <= i < |kept| ==>
                  && kept[i] < c.NChannels() && kept[i] !in indices
                  && r.timeseries[i] == c.timeseries[kept[i]]
                  && r.frequencies[i] == c.frequencies[kept[i]]
                  && r.channelNames[i] == c.channelNames[kept[i]]
                  && r.units[i] == c.units[kept[i]])
            && (forall i, j :: 0 <= i < j < |kept| ==> kept[i] < kept[j])
            && (forall p: nat :: p < c.NChannels() && p !in indices ==> p in kept)
  {
    KeptIndicesSpec(c.NChannels(), indices, 0);
  }
}
