/**
  `SingleFrequencyPhysio`, the single-frequency view of a recording: one
  matrix with a row per time point and a column per channel, one shared
  frequency, and one name and unit per column. Also the conversions into it
  from the multi-frequency container: `init_from_blueprint` and
  `BlueprintInput.to_frequency`.
 */
module SingleFrequencyView {
  import opened Common
  import opened Padding
  import opened Deletion
  import opened Blueprints

  /** The matrix has `|timeseries|` rows (time points) of `width` columns
      (channels); `width` is kept apart so that a matrix with no rows still
      knows how many columns it has, as an ndarray's shape does. */
  datatype SingleFrequency = SingleFrequency(
    timeseries: seq<seq<real>>,
    width: nat,
    frequency: real,
    channelNames: seq<string>,
    units: seq<string>,
    startTime: real,
    filename: Option<string>)
  {
    /** `n_channels`: the number of columns, `timeseries.shape[1]`. */
    function NChannels(): nat {
      width
    }

    function NTimepoints(): nat {
      |timeseries|
    }

    /** Every row has one entry per channel. */
    predicate Shaped() {
      forall i :: 0 <= i < |timeseries| ==> |timeseries[i]| == width
    }

    /** The matrix is rectangular and names and units have one entry per
        column. */
    predicate WellFormed() {
      Shaped() && |channelNames| == width && |units| == width
    }

    /** `timeseries[:, k]`: the samples of channel `k`. */
    function Column(k: nat): (col: seq<real>)
      requires Shaped() && k < width
      ensures |col| == |timeseries|
      ensures forall i :: 0 <= i < |col| ==> col[i] == timeseries[i][k]
    {
      seq(|timeseries|, i requires 0 <= i < |timeseries| => timeseries[i][k])
    }
  }

  /** All channels have the same number of samples, so that numpy can stack
      them into a matrix. */
  predicate Rectangular(channels: seq<seq<real>>) {
    forall k :: 0 <= k < |channels| ==> |channels[k]| == |channels[0]|
  }

  /** `np.asarray(channels).T`: the matrix whose column `k` is channel `k`. */
  function Transpose(channels: seq<seq<real>>, length: nat): (rows: seq<seq<real>>)
    requires forall k :: 0 <= k < |channels| ==> |channels[k]| == length
    ensures |rows| == length
    ensures forall i :: 0 <= i < length ==> |rows[i]| == |channels|
    ensures forall i, k :: 0 <= i < length && 0 <= k < |channels| ==> rows[i][k] == channels[k][i]
  {
    seq(length, i requires 0 <= i < length =>
      seq(|channels|, k requires 0 <= k < |channels| => channels[k][i]))
  }

  /** Reading the columns of a transposed stack of channels gives back the
      channels. */
  lemma ColumnsOfTranspose(channels: seq<seq<real>>, length: nat, v: SingleFrequency)
    requires forall k :: 0 <= k < |channels| ==> |channels[k]| == length
    requires v.timeseries == Transpose(channels, length) && v.width == |channels|
    ensures v.Shaped()
    ensures forall k :: 0 <= k < |channels| ==> v.Column(k) == channels[k]
  {
    forall k | 0 <= k < |channels|
      ensures v.Column(k) == channels[k]
    {
      assert |v.Column(k)| == |channels[k]|;
    }
  }

  /** The constructor's list handling: names and units fitted to the column
      count with "unknown" and "[]" (IndexError when an empty list has to
      be padded). The filename is stored as given. */
  function Assemble(timeseries: seq<seq<real>>, width: nat, frequency: real, channelNames: seq<string>,
                    units: seq<string>, startTime: real, filename: Option<string>): (r: Result<SingleFrequency>)
    requires forall i :: 0 <= i < |timeseries| ==> |timeseries[i]| == width
    ensures r.Success? <==> width == 0 || (|channelNames| > 0 && |units| > 0)
    ensures r.Failure? ==> r.error == IndexError
    ensures r.Success? ==>
      && r.value.WellFormed()
      && r.value.timeseries == timeseries && r.value.width == width
      && r.value.frequency == frequency && r.value.startTime == startTime
      && r.value.filename == filename
      && FittedTo(r.value.channelNames, channelNames, width, "unknown")
      && FittedTo(r.value.units, units, width, "[]")
  {
    var names :- HasSize(channelNames, width, "unknown");
    var fitted :- HasSize(units, width, "[]");
    Success(SingleFrequency(timeseries, width, frequency, names, fitted, startTime, filename))
  }

  /** `SingleFrequencyPhysio(...)`: as `Assemble`, and then a filename that
      is not a string (`None`) raises AttributeError. */
  function NewSingleFrequency(timeseries: seq<seq<real>>, width: nat, frequency: real, channelNames: seq<string>,
                              units: seq<string>, startTime: real, filename: Option<string>)
    : (r: Result<SingleFrequency>)
    requires forall i :: 0 <= i < |timeseries| ==> |timeseries[i]| == width
    ensures r.Success? <==> (width == 0 || (|channelNames| > 0 && |units| > 0)) && filename.Some?
    ensures !(width == 0 || (|channelNames| > 0 && |units| > 0)) ==> r == Failure(IndexError)
    ensures (width == 0 || (|channelNames| > 0 && |units| > 0)) && filename.None? ==> r == Failure(AttributeError)
    ensures r.Success? ==>
      r == Assemble(timeseries, width, frequency, channelNames, units, startTime, filename)
  {
    var v :- Assemble(timeseries, width, frequency, channelNames, units, startTime, filename);
    if filename.None? then Failure(AttributeError) else Success(v)
  }

  /** `np.asarray(channels).T` followed by the read of `[0, 0]`: ValueError
      for ragged channels, IndexError when there is no channel or no sample,
      otherwise the matrix whose column `k` is channel `k`. */
  function Stack(channels: seq<seq<real>>): (r: Result<seq<seq<real>>>)
    ensures !Rectangular(channels) ==> r == Failure(RaggedChannels)
    ensures Rectangular(channels) && (|channels| == 0 || |channels[0]| == 0) ==> r == Failure(IndexError)
    ensures r.Success? ==>
      && Rectangular(channels) && |channels| > 0 && |channels[0]| > 0
      && r.value == Transpose(channels, |channels[0]|)
  {
    if !Rectangular(channels) then Failure(RaggedChannels)
    else if |channels| == 0 || |channels[0]| == 0 then Failure(IndexError)
    else Success(Transpose(channels, |channels[0]|))
  }

  /** The view of a list of channels: stacked and transposed, `start_time`
      read at `[0, 0]`, and the names and units fitted by `Assemble`; the
      filename is stored as given. */
  function View(channels: seq<seq<real>>, frequency: real, channelNames: seq<string>, units: seq<string>,
                filename: Option<string>): (r: Result<SingleFrequency>)
    ensures !Rectangular(channels) ==> r == Failure(RaggedChannels)
    ensures Rectangular(channels) && (|channels| == 0 || |channels[0]| == 0) ==> r == Failure(IndexError)
    ensures r.Success? ==>
      && Rectangular(channels) && |channels| > 0 && |channels[0]| > 0
      && r.value.WellFormed()
      && r.value.NChannels() == |channels|
      && r.value.NTimepoints() == |channels[0]|
      && (forall k :: 0 <= k < |channels| ==> r.value.Column(k) == channels[k])
      && r.value.frequency == frequency
      && r.value.startTime == channels[0][0]
      && r.value.filename == filename
      && FittedTo(r.value.channelNames, channelNames, |channels|, "unknown")
      && FittedTo(r.value.units, units, |channels|, "[]")
  {
    var rows :- Stack(channels);
    var v :- Assemble(rows, |channels|, frequency, channelNames, units, channels[0][0], filename);
    ColumnsOfTranspose(channels, |channels[0]|, v);
    Success(v)
  }

  /** `init_from_blueprint`: the container's channels as columns, its first
      frequency as the shared one, the first sample of channel 0 as the start
      time, and the constructor's default filename "". */
  function InitFromBlueprint(bp: Blueprint): (r: Result<SingleFrequency>)
    ensures r.Success? <==>
      && Rectangular(bp.timeseries) && |bp.frequencies| > 0
      && |bp.timeseries| > 0 && |bp.timeseries[0]| > 0
      && |bp.channelNames| > 0 && |bp.units| > 0
    ensures !Rectangular(bp.timeseries) ==> r == Failure(RaggedChannels)
    ensures r.Failure? && Rectangular(bp.timeseries) ==> r.error == IndexError
    ensures r.Success? ==>
      && r.value.WellFormed()
      && r.value.NChannels() == bp.NChannels()
      && r.value.NTimepoints() == |bp.timeseries[0]|
      && (forall k :: 0 <= k < bp.NChannels() ==> r.value.Column(k) == bp.timeseries[k])
      && r.value.frequency == bp.frequencies[0]
      && r.value.startTime == bp.timeseries[0][0]
      && r.value.filename == Some("")
      && FittedTo(r.value.channelNames, bp.channelNames, bp.NChannels(), "unknown")
      && FittedTo(r.value.units, bp.units, bp.NChannels(), "[]")
  {
    if !Rectangular(bp.timeseries) then Failure(RaggedChannels)
    else if |bp.frequencies| == 0 then Failure(IndexError)
    else
      var rows :- Stack(bp.timeseries);
      var v :- NewSingleFrequency(rows, |bp.timeseries|, bp.frequencies[0], bp.channelNames, bp.units,
                                  bp.timeseries[0][0], Some(""));
      ColumnsOfTranspose(bp.timeseries, |bp.timeseries[0]|, v);
      Success(v)
  }

  /** For a well-formed container whose channels share one frequency, every
      channel of the view is sampled at the view's frequency, and names and
      units are carried over unchanged. */
  lemma InitFromUniformBlueprint(bp: Blueprint)
    requires bp.WellFormed()
    requires InitFromBlueprint(bp).Success?
    requires forall k :: 0 <= k < |bp.frequencies| ==> bp.frequencies[k] == bp.frequencies[0]
    ensures var v := InitFromBlueprint(bp).value;
            && (forall k :: 0 <= k < v.NChannels() ==> bp.frequencies[k] == v.frequency)
            && v.channelNames == bp.channelNames
            && v.units == bp.units
  {
    var v := InitFromBlueprint(bp).value;
    assert |v.channelNames| == |bp.channelNames|;
    assert |v.units| == |bp.units|;
  }

  /** `delete_at_index`: column `idx` (a Python subscript, so negative values
      count from the end) is deleted from the matrix together with its name
      and unit; IndexError when it is out of range. */
  function DeleteAtIndex(v: SingleFrequency, idx: int): (r: Result<SingleFrequency>)
    requires v.WellFormed()
    ensures r.Success? <==> -(v.NChannels() as int) <= idx < v.NChannels()
    ensures r.Failure? ==> r.error == IndexError
    ensures r.Success? ==>
      var k := idx % v.NChannels();
      && r.value.WellFormed()
      && r.value.NChannels() == v.NChannels() - 1
      && r.value.NTimepoints() == v.NTimepoints()
      && (forall j :: 0 <= j < r.value.NChannels() ==>
            var from := if j < k then j else j + 1;
            && r.value.Column(j) == v.Column(from)
            && r.value.channelNames[j] == v.channelNames[from]
            && r.value.units[j] == v.units[from])
      && r.value.frequency == v.frequency
      && r.value.startTime == v.startTime
      && r.value.filename == v.filename
  {
    match ResolveIndex(v.width, idx)
    case None => Failure(IndexError)
    case Some(k) =>
      var rows := seq(|v.timeseries|, i requires 0 <= i < |v.timeseries| => DeleteAt(v.timeseries[i], k));
      var r := v.(timeseries := rows, width := v.width - 1,
                  channelNames := DeleteAt(v.channelNames, k), units := DeleteAt(v.units, k));
      assert forall j :: 0 <= j < r.width ==> r.Column(j) == v.Column(if j < k then j else j + 1);
      Success(r)
  }

  /** The indices of the channels sampled at a frequency other than `f`,
      which `to_frequency` removes. */
  function OtherFrequencies(c: Blueprint, f: real): (dropped: set<nat>)
    ensures forall k: nat :: k in dropped <==> k < |c.frequencies| && c.frequencies[k] != f
  {
    set k: nat | k < |c.frequencies| && c.frequencies[k] != f
  }

  /** `to_frequency`, as intended: an absent frequency raises ValueError
      (FrequencyAbsent); otherwise every channel at another frequency is
      removed and what remains becomes a view at frequency `f` with no
      filename. */
  function ToFrequency(c: Blueprint, f: real): (r: Result<SingleFrequency>)
    requires c.WellFormed()
    ensures f !in c.frequencies ==> r == Failure(FrequencyAbsent)
    ensures f in c.frequencies ==>
      var kept := Without(c.timeseries, OtherFrequencies(c, f));
      && |kept| > 0
      && (r.Success? <==> Rectangular(kept) && |kept[0]| > 0)
      && (!Rectangular(kept) ==> r == Failure(RaggedChannels))
      && (r.Success? ==>
            && r.value.WellFormed()
            && r.value.NChannels() == |kept|
            && (forall k :: 0 <= k < |kept| ==> r.value.Column(k) == kept[k])
            && r.value.frequency == f
            && r.value.startTime == kept[0][0]
            && r.value.channelNames == Without(c.channelNames, OtherFrequencies(c, f))
            && r.value.units == Without(c.units, OtherFrequencies(c, f))
            && r.value.filename.None?)
  {
    if f !in c.frequencies then Failure(FrequencyAbsent)
    else
      var dropped := OtherFrequencies(c, f);
      var kept := RemoveChannels(c, dropped).value;
      KeptAtFrequency(c, f);
      var v :- View(kept.timeseries, f, kept.channelNames, kept.units, None);
      assert |v.channelNames| == |kept.channelNames| && |v.units| == |kept.units|;
      Success(v)
  }

  /** The channels that `to_frequency` keeps are exactly the channels sampled
      at `f`, in their original order, each with its own name and unit. */
  lemma KeptAtFrequency(c: Blueprint, f: real)
    requires c.WellFormed()
    requires f in c.frequencies
    ensures var kept := KeptIndices(c.NChannels(), OtherFrequencies(c, f), 0);
            var r := RemoveChannels(c, OtherFrequencies(c, f));
            && r.Success?
            && |kept| > 0
            && r.value.NChannels() == |kept|
            && (forall i :: 0 <= i < |kept| ==>
                  && kept[i] < c.NChannels()
                  && c.frequencies[kept[i]] == f
                  && r.value.timeseries[i] == c.timeseries[kept[i]]
                  && r.value.channelNames[i] == c.channelNames[kept[i]]
                  && r.value.units[i] == c.units[kept[i]])
            && (forall i, j :: 0 <= i < j < |kept| ==> kept[i] < kept[j])
            && (forall p: nat :: p < c.NChannels() && c.frequencies[p] == f ==> p in kept)
  {
    var dropped := OtherFrequencies(c, f);
    RemoveChannelsKeepsUnlisted(c, dropped);
    var kept := KeptIndices(c.NChannels(), dropped, 0);
    var p :| 0 <= p < |c.frequencies| && c.frequencies[p] == f;
    assert p as nat !in dropped;
    assert p in kept;
  }

  /** The view at frequency `f` has one column per channel sampled at `f`,
      and each column is that channel's series. */
  lemma ToFrequencyKeepsChannelsAt(c: Blueprint, f: real)
    requires c.WellFormed()
    requires ToFrequency(c, f).Success?
    ensures var v := ToFrequency(c, f).value;
            var kept := KeptIndices(c.NChannels(), OtherFrequencies(c, f), 0);
            && v.NChannels() == |kept|
            && (forall i :: 0 <= i < |kept| ==>
                  && c.frequencies[kept[i]] == f
                  && v.Column(i) == c.timeseries[kept[i]]
                  && v.channelNames[i] == c.channelNames[kept[i]]
                  && v.units[i] == c.units[kept[i]])
            && (forall p: nat :: p < c.NChannels() && c.frequencies[p] == f ==> p in kept)
  {
    KeptAtFrequency(c, f);
  }

  /** When every channel is sampled at the container's first frequency,
      `to_frequency` at that frequency is `init_from_blueprint` without a
      filename. */
  lemma ToFrequencyOfUniform(c: Blueprint)
    requires c.WellFormed() && c.NChannels() > 0
    requires forall k :: 0 <= k < |c.frequencies| ==> c.frequencies[k] == c.frequencies[0]
    ensures InitFromBlueprint(c).Success? ==>
              ToFrequency(c, c.frequencies[0]) == Success(InitFromBlueprint(c).value.(filename := None))
    ensures InitFromBlueprint(c).Failure? ==> ToFrequency(c, c.frequencies[0]).Failure?
  {
    var f := c.frequencies[0];
    assert OtherFrequencies(c, f) == {};
    WithoutNothing(c.timeseries);
    WithoutNothing(c.channelNames);
    WithoutNothing(c.units);
    if InitFromBlueprint(c).Success? {
      var v := InitFromBlueprint(c).value;
      var w := ToFrequency(c, f).value;
      assert w.timeseries == v.timeseries;
      assert w.channelNames == v.channelNames;
      assert w.units == v.units;
    }
  }

  /** Deleting a column of the view is the same as removing that channel
      from the container before building the view, for any channel but the
      first (which supplies the start time and the shared frequency). */
  lemma DeleteCommutesWithRemove(bp: Blueprint, k: nat)
    requires bp.WellFormed()
    requires InitFromBlueprint(bp).Success?
    requires 0 < k < bp.NChannels()
    ensures var after := RemoveChannels(bp, {k});
            && after.Success?
            && InitFromBlueprint(after.value).Success?
            && DeleteAtIndex(InitFromBlueprint(bp).value, k)
               == Success(InitFromBlueprint(after.value).value)
  {
    var v := InitFromBlueprint(bp).value;
    var after := RemoveChannels(bp, {k}).value;
    WithoutOne(bp.timeseries, k);
    WithoutOne(bp.frequencies, k);
    WithoutOne(bp.channelNames, k);
    WithoutOne(bp.units, k);
    assert after.timeseries == DeleteAt(bp.timeseries, k);
    assert Rectangular(after.timeseries);
    var w := InitFromBlueprint(after).value;
    var d := DeleteAtIndex(v, k).value;
    assert d.width == w.width;
    assert d.frequency == w.frequency;
    assert d.startTime == w.startTime;
    assert d.filename == w.filename;
    assert d.channelNames == w.channelNames;
    assert d.units == w.units;
    assert |d.timeseries| == |w.timeseries|;
    forall i | 0 <= i < |d.timeseries|
      ensures d.timeseries[i] == w.timeseries[i]
    {
      forall j | 0 <= j < d.width
        ensures d.timeseries[i][j] == w.timeseries[i][j]
      {
        assert d.timeseries[i][j] == d.Column(j)[i];
        assert w.timeseries[i][j] == w.Column(j)[i];
      }
    }
    assert d.timeseries == w.timeseries;
  }

  /** A recording with time and a signal at 1 Hz and a second signal at
      2 Hz. */
  function ExampleRecording(): (c: Blueprint)
    ensures c.WellFormed()
  {
    Blueprint([[0.0, 1.0], [5.0, 6.0], [7.0, 7.5, 8.0, 8.5]], [1.0, 1.0, 2.0],
              ["time", "pulse", "co2"], ["s", "V", "%"], Some(0), None, None, 0.0)
  }

  /** At 1 Hz the 2 Hz channel is the one dropped. */
  lemma ExampleSelection()
    ensures var c := ExampleRecording();
            && OtherFrequencies(c, 1.0) == {2}
            && Without(c.timeseries, {2}) == [[0.0, 1.0], [5.0, 6.0]]
            && Without(c.channelNames, {2}) == ["time", "pulse"]
  {
    var c := ExampleRecording();
    assert OtherFrequencies(c, 1.0) == {2};
    WithoutOne(c.timeseries, 2);
    WithoutOne(c.channelNames, 2);
  }

  /** The 1 Hz view of the example holds the first two channels as a 2-by-2
      matrix, with time first. */
  lemma ToFrequencyExample()
    ensures var v := ToFrequency(ExampleRecording(), 1.0);
            && v.Success?
            && v.value.NChannels() == 2 && v.value.NTimepoints() == 2
            && v.value.Column(0) == [0.0, 1.0] && v.value.Column(1) == [5.0, 6.0]
            && v.value.channelNames == ["time", "pulse"]
            && v.value.startTime == 0.0
  {
    var c := ExampleRecording();
    assert c.frequencies[0] == 1.0;
    ExampleSelection();
    assert Rectangular(Without(c.timeseries, {2}));
  }

  /** 5 Hz is not a frequency of the example recording. */
  lemma ToFrequencyAbsentExample()
    ensures ToFrequency(ExampleRecording(), 5.0) == Failure(FrequencyAbsent)
  {
    assert 5.0 !in ExampleRecording().frequencies;
  }
}
