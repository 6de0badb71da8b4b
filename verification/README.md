# phys2bids physiological-recording containers, in Dafny

This project models the two data containers of phys2bids
(`phys2bids/physio_obj.py`) and proves properties of the model.

- `BlueprintInput` is the multi-frequency recording. It holds one time series
  per channel, with channel 0 being time. Alongside are parallel lists of
  sampling frequencies, channel names and units, the index of the trigger
  channel, and the results of trigger detection.
- `SingleFrequencyPhysio` is the single-frequency view: one matrix with a row
  per time point and a column per channel, one shared frequency, and one name
  and unit per column.

The operations are modelled as pure functions over immutable datatypes.
A method that mutates the Python object becomes a function that returns the
updated container. Samples and frequencies are exact `real`s. Every Python
exception becomes a constructor of `Common.Error`:
- IndexError from a list or array subscript is `IndexError`.
- `__getitem__`'s own bounds check is `SliceOutOfBounds`.
- A zero slice step is `ZeroStep`.
- `argmax` of an empty array is `EmptyArgMax`.
- numpy's refusal to stack channels of different lengths is `RaggedChannels`.
- The absent-frequency error of `to_frequency` is `FrequencyAbsent`.
- `ZeroDivisionError`, `TypeError`, `AttributeError` and `NameError` keep
  their names.

Modules, one per file:

| file | module | what it models |
|---|---|---|
| `common.dfy` | `Common` | `Option`, `Result`, the error kinds, and Python's subscript resolution (negative indices count from the end) |
| `padding.dfy` | `Padding` | `has_size` |
| `deletion.dfy` | `Deletion` | deleting a set of positions one `del` at a time, highest first, and its closed form `Without` |
| `blueprint.dfy` | `Blueprints` | `BlueprintInput`: constructor, `n_channels`, `rename_channels`, `return_index`, `remove_channels` |
| `pulses.dfy` | `Pulses` | the threshold mask, `itertools.groupby` runs, the pulse count and `argmax` |
| `trigger.dfy` | `TriggerDetection` | `check_trigger_amount` |
| `slicing.dfy` | `Slicing` | Python's `s[start:stop:step]` on one channel |
| `temporal.dfy` | `TemporalSlicing` | `BlueprintInput.__getitem__` |
| `single_frequency.dfy` | `SingleFrequencyView` | `SingleFrequencyPhysio`: constructor, `n_channels`, `delete_at_index`, `init_from_blueprint`; also `BlueprintInput.to_frequency` |
| `findings.dfy` | `AsWritten` | the code as written where it departs from its evident intent (see Findings) |

`n_channels` is `Blueprint.NChannels` (the number of time series) and
`SingleFrequency.NChannels` (the number of matrix columns). These are plain
accessors and have no rows below.

## Trigger detection run twice

Calling `check_trigger_amount` a second time with the same arguments does
not subtract the offset a second time. This holds whenever the trigger is not
the time channel itself.

The reason is that the first call leaves the first pulse at its target time:
zero, or `missing * tr` when missing pulses were corrected for. The second
call therefore computes an offset of zero and leaves the time channel as it
is. The lemma `TriggerDetection.SecondDetectionKeepsTime` states this.

One might expect a second call to subtract the offset again. In exact
arithmetic it does not: the time channel stays where the first call put it.
Floating-point rounding in `time - offset` can leave a residue, and that
residue is not modelled.

## Integer subscripts below minus the trigger length

`__getitem__` counts a negative integer back from the trigger length once
(physio_obj.py:298). Its bounds check (physio_obj.py:309) only rejects
windows that start at or past the trigger length or end past it. So an
integer `i` passes the check exactly when `i < trigger_length`, and one below
`-trigger_length` stays negative. The channel's own slice then counts it back
a second time. `TemporalSlicing.InstantInBounds` states the bounds fact.
`TemporalSlicing.InstantBelowLengthWraps` shows that `container[-7]` on the
five samples `[1, 2, 3, 4, 5]` returns `[4]` rather than raising IndexError.
The model follows the code here.

## Model

| member | source | states |
|---|---|---|
| `Padding.HasSize` | phys2bids/physio_obj.py:73-80 | The result has exactly `data_size` entries. The first `min(len, data_size)` are the input's and the rest are `token`. It fails (IndexError, from reading `var[0]`) exactly when an empty list must be padded. |
| `Padding.HasSizeIdempotent` | phys2bids/physio_obj.py:73-80 | Fitting an already fitted list again changes nothing. |
| `Blueprints.NewBlueprint` | phys2bids/physio_obj.py:229-241 | Construction succeeds exactly when there are no channels or all three lists are non-empty. Afterwards frequencies, names and units each have one entry per time series, fitted with 0.0, "unknown" and "[]". The trigger and the detection fields are stored as given. |
| `Blueprints.NewBlueprintOfWellFormed` | phys2bids/physio_obj.py:229-241 | Lists that already have one entry per channel pass through the constructor unchanged. |
| `Blueprints.RenameChannels` | phys2bids/physio_obj.py:373-379 | Only the names change. They become "time" followed by the new names, with their first "time" removed, fitted to the channel count. So a non-empty container has "time" first. |
| `Blueprints.RenameIdempotent` | phys2bids/physio_obj.py:373-379 | Renaming with the names a rename produced gives the same container. |
| `Blueprints.ReturnIndex` | phys2bids/physio_obj.py:396-397 | Succeeds exactly for `-n <= idx < n` and otherwise raises IndexError. It returns the series, channel count, frequency, name and unit of channel `idx mod n`. |
| `Blueprints.RemoveChannels` | phys2bids/physio_obj.py:419-432 | Succeeds exactly when every listed index is below the channel count (else IndexError). The four lists are each the original without the listed positions. The trigger becomes unset exactly when it is listed. Nothing else changes. |
| `Blueprints.RemoveChannelsKeepsUnlisted` | phys2bids/physio_obj.py:423-427 | The survivors are exactly the unlisted channels, in their original order, each keeping its series, frequency, name and unit together. |
| `Deletion.DeleteDescendingIsWithout` | phys2bids/physio_obj.py:423-427 | Deleting the listed positions one at a time, highest first, removes exactly those positions and keeps the order of the rest. |
| `Deletion.WithoutOne` | phys2bids/physio_obj.py:424 | Removing a single listed position is one `del`. |
| `Pulses.GroupBy` | phys2bids/physio_obj.py:471-472 | `groupby` on the mask yields non-empty groups with alternating keys that concatenate back to the mask, i.e. the maximal runs. |
| `Pulses.PulseCountIsRunStarts` | phys2bids/physio_obj.py:470-472 | The number of `true` groups equals the number of positions where an above-threshold run begins (an independent definition). |
| `Pulses.PulseCountBounds` | phys2bids/physio_obj.py:470-472 | The pulse count is at most the number of above-threshold samples. It is zero exactly when no sample exceeds the threshold. |
| `Pulses.PulseCountExample` | phys2bids/physio_obj.py:470-472 | `[0,0,3,3,0,0,3,3,3,0]` with threshold 2.5 has 2 pulses. |
| `Pulses.CountPulses` | phys2bids/physio_obj.py:470-472 | A single pass that remembers the previous sample's key computes the `groupby` pulse count. |
| `Pulses.ArgMax` | phys2bids/physio_obj.py:479 | `argmax` of the mask is the first above-threshold index, or 0 when there is none. |
| `TriggerDetection.CorrectedOffset` | phys2bids/physio_obj.py:479-500 | The offset is the time at the first pulse. It is lowered by `(expected - found) * tr` exactly when a count is expected, fewer pulses are found, and `tr` is non-zero. |
| `TriggerDetection.CheckTriggerAmount` | phys2bids/physio_obj.py:464-514 | An unset trigger raises TypeError, an out-of-range trigger raises IndexError, an empty trigger channel raises ValueError from `argmax`, and a first pulse past the end of the time channel raises IndexError. On success every time sample drops by the offset. The threshold, pulse count and offset are recorded. No other channel or list changes. |
| `TriggerDetection.CheckTriggerAmountSucceeds` | phys2bids/physio_obj.py:464-479 | Detection succeeds whenever the trigger resolves, the trigger channel is non-empty and the first pulse lies inside the time channel. |
| `TriggerDetection.TimeOriginAtFirstPulse` | phys2bids/physio_obj.py:479-513 | After detection the first pulse sits at time 0, or at `missing * tr` when corrected. When any sample exceeds the threshold, the sample at the recorded index does too. |
| `TriggerDetection.SecondDetectionKeepsTime` | phys2bids/physio_obj.py:479-514 | A second detection with the same arguments leaves the time channel unchanged. The second offset is 0 and the same count is found. |
| `Slicing.PySlice` | phys2bids/physio_obj.py:330-331 | `channel[start:stop:step]` fails only for a zero step. Otherwise it has CPython's slice length, and its `k`-th entry is `k` strides past the adjusted start. |
| `Slicing.ContiguousSlice` | phys2bids/physio_obj.py:330-331 | A step-less slice with bounds `0 <= a <= b` is the contiguous sub-sequence between the clamped bounds. |
| `TemporalSlicing.Normalise` | phys2bids/physio_obj.py:292-306 | An integer becomes the one-sample window `[j, j+1)`; for an integer within `-L..L-1` the start `j` is the ordinary Python index into a list of the trigger length `L`. A missing start is 0 and a missing stop is the trigger length. |
| `TemporalSlicing.Rescale` | phys2bids/physio_obj.py:318-322 | A non-zero bound becomes `floor(f_n / f_trig * x)`. A zero bound stays 0. Equal frequencies leave it unchanged. |
| `TemporalSlicing.ChannelWindow` | phys2bids/physio_obj.py:315-330 | The per-channel window: start and step are floors of the rescaled values. The stop is start+1 for an instant or when the floors meet. Otherwise a stop at the trigger length becomes the channel length, else it is the rescaled stop. A zero trigger frequency raises exactly when something is divided. |
| `TemporalSlicing.GetItem` | phys2bids/physio_obj.py:285-336 | An unresolvable trigger raises IndexError. The bounds error is raised exactly when the normalised window starts at or past the trigger length or ends past it. A result keeps the channel count, frequencies, names, units and detection fields, and each channel is its own rescaled slice. |
| `TemporalSlicing.GetItemSucceeds` | phys2bids/physio_obj.py:308-331 | Without a step, an in-bounds request on a container with a non-zero trigger frequency never fails. |
| `TemporalSlicing.SlowChannelUnitStepFails` | phys2bids/physio_obj.py:318-331 | A step of 1 is rescaled too. On any channel slower than the trigger (positive frequency below the trigger's) it floors to 0, so that channel's slice raises ValueError and the whole subscript fails. |
| `TemporalSlicing.SliceFromStopsAtZeroStep` | phys2bids/physio_obj.py:315-331 | With a non-zero trigger frequency, one channel whose slice has a zero step makes the loop over all channels raise ValueError, whatever the channels before it do. |
| `TemporalSlicing.InstantChannel` | phys2bids/physio_obj.py:293-331 | An integer subscript takes from a long enough channel exactly the one sample at `floor(f_n / f_trig * j)`. |
| `TemporalSlicing.RangeChannel` | phys2bids/physio_obj.py:315-331 | `[a:b]` with `b` short of the trigger length takes `floor(r*b) - floor(r*a)` samples, or one when the floors meet. |
| `TemporalSlicing.TriggerRangeChannel` | phys2bids/physio_obj.py:315-331 | The trigger channel itself is sliced with the requested indices unchanged. |
| `TemporalSlicing.FullChannel` | phys2bids/physio_obj.py:325-331 | A stop at the full trigger length is clamped to the channel's own length, so `[:]` returns the channel whole. |
| `TemporalSlicing.InstantTakesOneSample` | phys2bids/physio_obj.py:280-336 | On the container, an integer subscript gives every long enough positive-frequency channel its one sample at the rescaled position. |
| `TemporalSlicing.RangeIsProportional` | phys2bids/physio_obj.py:280-336 | For `0 <= a < b < trigger length`, a positive trigger frequency, and a channel with a non-negative frequency that is at least as long as `f_n / f_trig * b`: on the container, `[a:b]` succeeds, keeps the trigger's samples `a..b-1` and gives that channel `floor(r*b) - floor(r*a)` samples, or one when the floors meet. |
| `TemporalSlicing.InstantInBounds` | phys2bids/physio_obj.py:293-312 | An integer subscript passes the bounds check exactly when it is below the trigger length, including every negative one. |
| `TemporalSlicing.InstantBelowLengthWraps` | phys2bids/physio_obj.py:293-331 | `container[-7]` on the one-channel container `[1, 2, 3, 4, 5]` returns `[4]` and raises nothing. |
| `TemporalSlicing.FullRangeKeepsChannels` | phys2bids/physio_obj.py:302-336 | For a non-empty trigger channel, a non-zero trigger frequency, and every channel holding at least one sample per trigger length (`f_n / f_trig * L >= 1`): `container[:]` succeeds and returns every channel unchanged. |
| `SingleFrequencyView.Transpose` | phys2bids/physio_obj.py:727 | `np.asarray(channels).T`: as many rows as samples, one entry per channel, and entry `[i][k]` is sample `i` of channel `k`. |
| `SingleFrequencyView.ColumnsOfTranspose` | phys2bids/physio_obj.py:727 | Reading the columns of the transposed stack gives back the channels. |
| `SingleFrequencyView.Assemble` | phys2bids/physio_obj.py:606-607 | Names and units are fitted to the column count with "unknown" and "[]". It raises IndexError exactly when an empty list must be padded. |
| `SingleFrequencyView.NewSingleFrequency` | phys2bids/physio_obj.py:602-609 | As `Assemble`, and a filename that is not a string raises AttributeError. |
| `SingleFrequencyView.View` | phys2bids/physio_obj.py:527-532 | Ragged channels raise. No channel or no sample raises IndexError at `[0, 0]`. Otherwise column `k` is channel `k`, the start time is the first sample of the first channel, and names and units are fitted to the channel count. |
| `SingleFrequencyView.InitFromBlueprint` | phys2bids/physio_obj.py:709-732 | Succeeds exactly for rectangular, non-empty channels with non-empty frequency, name and unit lists. Column `k` is channel `k`. The shared frequency is `frequencies[0]`, the start time is the first time sample, and the filename is "". |
| `SingleFrequencyView.InitFromUniformBlueprint` | phys2bids/physio_obj.py:718-730 | When all frequencies agree, as the docstring demands, every channel of the view is sampled at the view's frequency, and names and units carry over unchanged. |
| `SingleFrequencyView.DeleteAtIndex` | phys2bids/physio_obj.py:683-707 | Succeeds exactly for `-n <= idx < n`, else IndexError. Column `idx mod n` is deleted with its name and unit. The other columns keep their order and everything else is unchanged. |
| `SingleFrequencyView.DeleteCommutesWithRemove` | phys2bids/physio_obj.py:705-707 | For any channel but the first, deleting its column from the view equals building the view after removing the channel from the container. |
| `SingleFrequencyView.ToFrequency` | phys2bids/physio_obj.py:516-532 | An absent frequency raises. Otherwise the view holds exactly the channels without those at other frequencies. Its frequency is the requested one, the start time is the first retained sample, and there is no filename. |
| `SingleFrequencyView.KeptAtFrequency` | phys2bids/physio_obj.py:524-526 | The retained channels are exactly those sampled at the requested frequency, in order, with their names and units. |
| `SingleFrequencyView.ToFrequencyKeepsChannelsAt` | phys2bids/physio_obj.py:524-531 | Column `i` of the view is the `i`-th channel sampled at the requested frequency, and every such channel appears. |
| `SingleFrequencyView.ToFrequencyOfUniform` | phys2bids/physio_obj.py:516-532 | When all channels share one frequency, `to_frequency` at it is `init_from_blueprint` without a filename. |
| `SingleFrequencyView.ToFrequencyExample` | phys2bids/physio_obj.py:516-532 | For channels at 1, 1 and 2 Hz, the 1 Hz view is the 2-by-2 matrix whose columns are the first two channels, with time first. |
| `SingleFrequencyView.ToFrequencyAbsentExample` | phys2bids/physio_obj.py:520-523 | Asking the same recording for 5 Hz raises the absent-frequency error. |
| `AsWritten.RemoveChannelsAsWritten` | phys2bids/physio_obj.py:422 | As written, every call raises AttributeError. |
| `AsWritten.RemoveChannelsAsWrittenNeverRemoves` | phys2bids/physio_obj.py:419-432 | Removing nothing leaves the container unchanged as intended, yet fails as written. |
| `AsWritten.ToFrequencyAsWritten` | phys2bids/physio_obj.py:520-524 | As written, every call fails. A present frequency gives NameError. An absent one gives TypeError, or ValueError when there are no frequencies. |
| `AsWritten.ToFrequencyAsWrittenDiffers` | phys2bids/physio_obj.py:520-524 | Whenever the intended conversion succeeds, the written one raises NameError. For an absent frequency it raises TypeError instead of ValueError. |
| `AsWritten.ToFrequencyCheckedFilename` | phys2bids/physio_obj.py:531-532 | Built through the constructor with `filename=None`, the conversion never succeeds. It fails as the intended one does, and with AttributeError wherever the intended one produces a view. |
| `AsWritten.NormaliseAsWritten` | phys2bids/physio_obj.py:303-306 | Filling a missing start or stop drops the step. Otherwise it agrees with `Normalise`. |
| `AsWritten.GetItemAsWritten` | phys2bids/physio_obj.py:285-336 | The written `__getitem__` is the intended one applied to the subscript minus its step whenever start or stop is missing. |
| `AsWritten.EveryOtherSampleIgnored` | phys2bids/physio_obj.py:303-306 | On the channel `[1, 2, 3, 4]`, `[::2]` should give `[1, 3]`. As written it gives all four samples. |

## Left out

- The automatic threshold `mean + 2 * std` (physio_obj.py:467-469) is floating-point statistics. `thr` is always an input to `CheckTriggerAmount`.
- Floating point: samples and frequencies are exact reals. `Rescale` floors the exact product `f_n / f_trig * x`, so it does not model a float product that lands just below an integer.
- `TemporalSlicing.Rescale` and `TemporalSlicing.ChannelWindow`: a zero trigger frequency is reported as ZeroDivisionError, which is what Python floats and ints raise. `is_valid` also accepts numpy scalars (`numpy.float64` is a `float`); with those, `f_n / f_trig` gives `inf` or `nan`, and `int(np.floor(...))` at physio_obj.py:320-322 raises OverflowError or ValueError instead. The model does not distinguish these.
- `are_equal` and both `__eq__` methods are duck-typed comparison fallbacks with no contract to state.
- `copy` and `deepcopy` have nothing to model in value semantics. The model therefore also drops the storage that derived objects share with their source (see the next line).
- `print_info`, logging, and the empty stubs `load`, `save` and `to_channel` are output or I/O only.
- `Padding.HasSize`, `Blueprints.NewBlueprint`: the int/float distinction is dropped, because frequencies are `real`s. In the source, `has_size` checks the padding token against the type of `var[0]` (physio_obj.py:77). A frequency list of ints, which the constructor accepts (physio_obj.py:233-234), therefore raises AttributeError when it must be padded with `0.0`. The model pads it. The other run-time type checks of `is_valid` are covered by Dafny's types. The filename check is kept: `NewSingleFrequency` rejects a missing filename, because `to_frequency` passes one.
- `SingleFrequencyPhysio.return_index` is not one of the modelled operations.
- `phys2bids/cli/run.py` is command-line plumbing and is not part of this model.
- In-place mutation: each operation returns a new container. `__getitem__` also rewrites an unset or zero trigger of the original container to 0 (physio_obj.py:287-288). That write is not modelled: the returned container simply carries the trigger index the slicing used.
- Shared storage between derived and original objects is not modelled. `__getitem__` returns numpy basic-slice views of the channels (physio_obj.py:331). It also hands its own `frequencies`, `channel_names` and `units` lists to the new container (physio_obj.py:333-334), and `has_size` returns the same list when its length already fits (physio_obj.py:73-80). `init_from_blueprint` shares `channel_names` and `units` the same way (physio_obj.py:729-732). Two effects follow. `bp[a:b].check_trigger_amount(...)` shifts `bp`'s own time samples through the in-place `-=` (physio_obj.py:513). `SingleFrequencyPhysio.init_from_blueprint(bp).delete_at_index(k)` deletes entry `k` from `bp.channel_names` and `bp.units` but not from `bp.timeseries` (physio_obj.py:706-707), which leaves `bp` ill-formed. In the model every result is independent of its source. This contradicts the "copy" that the docstring of `__getitem__` promises (physio_obj.py:257).
- `TemporalSlicing.GetItem` accepts an integer or a slice. The "tuple of int" that the docstring mentions is not handled by the code either.
- `Blueprints.RemoveChannels` takes the indices as a set of non-negative integers. Repeated indices, which would delete twice, and negative indices are not modelled.
- `Blueprints.RenameChannels`: `del new_names[...]` also removes "time" from the caller's own list. That side effect on the argument is not modelled.
- `SingleFrequencyView.DeleteAtIndex` takes an integer. Deleting a `range` of columns is not modelled.
- `SingleFrequencyView.View`: stacking channels of different lengths is modelled as an error (`RaggedChannels`). This matches current numpy (ValueError); older numpy built an object array instead.
- `TemporalSlicing.GetItemSucceeds`: proved only for requests without a step, because a rescaled step can floor to 0 and raise (`SlowChannelUnitStepFails`).

## Findings

| source | as written | input that shows it | evidently intended | confidence | as-written member | corrected member |
|---|---|---|---|---|---|---|
| phys2bids/physio_obj.py:422-432 | `np.as_array` is not a numpy function, so every call raises AttributeError before deleting anything. The trigger test after the loop also checks membership in the last loop index, an integer. | any call, e.g. removing no channel | Delete the listed channels from all four lists, highest index first, and unset the trigger when its index is listed (the Notes at :419-420) | not executed; high | `AsWritten.RemoveChannelsAsWritten` | `Blueprints.RemoveChannels` |
| phys2bids/physio_obj.py:520-524 | The absent-frequency message joins numbers with `', '.join` (TypeError). For a present frequency, the selection uses the undefined name `frequencies` (NameError). Even with that name fixed, `self.frequencies != frequency` compares a list with a number. That gives the single value `True`, so `np.where(True)[0]` is `[0]` and only channel 0 would be removed. | channels at 1, 1 and 2 Hz, asked for 1 Hz or 5 Hz | Raise ValueError for an absent frequency; otherwise drop every channel at another frequency | not executed; high | `AsWritten.ToFrequencyAsWritten` | `SingleFrequencyView.ToFrequency` |
| phys2bids/physio_obj.py:531-532 | The view is built with `filename=None`, which the constructor's `is_valid(filename, str)` at :609 rejects with AttributeError. | any frequency that is present, once the selection works | A view with no filename yet, as the class docstring describes the attribute ("str or None") | not executed; medium | `AsWritten.ToFrequencyCheckedFilename` | `SingleFrequencyView.ToFrequency` |
| phys2bids/physio_obj.py:303-306 | A missing start or stop is filled in by rebuilding the slice as `slice(0, stop)` or `slice(start, trigger_length)`, which drops the step. | `[::2]` on a one-channel container `[1, 2, 3, 4]` returns all four samples | Keep the step, which the loop at :316-322 reads and rescales, so the result is `[1, 3]` | not executed; medium | `AsWritten.GetItemAsWritten` | `TemporalSlicing.GetItem` |
