# hnn-core dipole toolkit, modelled in Dafny

This project models the analysis core of hnn-core, a simulator of
neocortical current dipoles. The tool takes a simulated dipole, a time axis
with three waveforms (`agg`, `L2` and `L5`), and offers two groups of
operations. The first transforms the dipole in place: baseline
renormalisation, conversion from fAm to nAm, scaling and smoothing. The
second averages dipoles across trials. Around these sit the argument and
window helpers of the plotting module and the argument checks run before an
external drive is attached to a network.

Modules, one per concern:

- `Common` (common.dfy): `Option`, `Result` and `Outcome` (pass or fail
  with an error).
- `Arrays` (arrays.dfy): NumPy-style operations on real sequences and
  their lemmas: sums, scaling, column extraction, means across trials,
  `x[::d]` and reversal.
- `Filters` (filters.dfy): `_hammfilt` is convolution with a normalised
  Hamming window in NumPy's `'same'` mode. `_savgol_filter` is modelled by
  its range check and its window-length rule. The Hamming window values
  and SciPy's Savitzky-Golay filter are parameters (`SignalLib`). The model
  relies only on their lengths and on the positivity of the window.
- `Dipoles` (dipoles.dfy): the `Dipole` class. Its fields are updated in
  place by methods, and each method is proved against a specification
  function: `Renormalized`, `ScaleAll`, `HammingSmoothed`,
  `SavgolSmoothed` or `PlanSmooth`. The module also holds
  `average_dipoles`.
- `Viz` (viz.dfy): `_check_scaling_units`, `_get_plot_data`,
  `_decimate_plot_data` (a loop), `_check_nfft`, the edge padding and crop
  of `plot_tfr_morlet`, and the spike-type label resolution of
  `plot_spikes_hist` (nested loops, proved against a recursive
  specification and characterised by an if-and-only-if lemma).
- `Drives` (drives.dfy): `_get_target_populations`,
  `_check_drive_parameter_values` and `_check_poisson_rates`.

Samples, times and rates are `real`. Python's dynamic argument types are
datatypes: `PyValue`, `SpikeTypesArg` and `RateConstant`. Each exception is
a constructor of an error datatype returned in a `Result` or `Outcome`.

Behaviour followed as the code has it:

- In `baseline_renormalize`, the L5 constant for `t <= 37` ms is
  `N * -49.0502`, and it is subtracted. Early L5 samples therefore rise by
  `49.0502 N`.
- `smooth` refuses `h_freq > sfreq / 2`. `_savgol_filter` refuses
  `h_freq >= sfreq / 2`. At exactly half the rate, the second check raises.
- `h_freq == 0` passes `smooth`'s own checks. `_savgol_filter` then
  computes `int(round(sfreq / 0))`, which fails, so it is modelled as the
  error `ZeroHFreq`. It is raised before any layer changes.
- `_check_nfft` clamps an oversized `n_per_seg` to `n_fft` and then to `n`
  instead of raising.
- `np.round` rounds half to even, and `numpy.hamming(m)` for a real `m`
  has `ceil(m - 1/2)` points.
- `average_dipoles` returns a dipole whose units are 'fAm' whatever the
  units of its inputs.
- `post_proc` is not all-or-nothing. When `smooth` raises, the data are
  already renormalised, converted and scaled.

## Model

| member | source | states |
|---|---|---|
| Filters.HammingLength | hnn_core/dipole.py:16 | the Hamming window for a real length `m > 1` has the integer length `k` with `k - 1/2 < m <= k + 1/2` |
| Filters.Normalized | hnn_core/dipole.py:17 | the normalised window has the same length, sums to one, and each weight times the old sum is the old weight |
| Filters.ConvolveSame | hnn_core/dipole.py:18 | the `'same'` convolution with a window no longer than the data keeps the data's length |
| Filters.Hammfilt | hnn_core/dipole.py:14-18 | smoothing with a window no longer than the data returns as many samples as it is given |
| Filters.HammfiltAdd | hnn_core/dipole.py:14-18 | smoothing is additive: the smoothed sum of two layers is the sum of the smoothed layers |
| Filters.ConvolveImpulse | hnn_core/dipole.py:18 | the `'same'` convolution of a unit impulse at `p` is the window placed from `p - (len-1)/2`, zero elsewhere |
| Filters.HammfiltImpulseSum | hnn_core/dipole.py:14-18 | an impulse whose window fits inside the data is smoothed to a signal summing to one, zero outside the window |
| Filters.RoundHalfEven | hnn_core/dipole.py:51 | the rounded value is within 1/2 of its argument and is even on a tie |
| Filters.SavgolWindowLength | hnn_core/dipole.py:51 | the window length is odd, within 1.5 of `sfreq / h_freq`, and at least 3 when `0 < h_freq < sfreq / 2` |
| Filters.SavgolCheck | hnn_core/dipole.py:46-51 | passes exactly when `h_freq < sfreq / 2` and `h_freq != 0` |
| Filters.SavgolFilter | hnn_core/dipole.py:22-55 | succeeds exactly when the check passes, returns the check's error otherwise, and keeps the length; SciPy's own refusals, such as the short windows of `SavgolWindowAtMostFive`, are outside this promise |
| Filters.SavgolWindowAtMostFive | hnn_core/dipole.py:51-53 | the window is at most 5 points, too short for `polyorder=5`, exactly when `sfreq / h_freq < 5.5`, so for every cutoff in `(sfreq / 5.5, sfreq / 2)` |
| Dipoles.Dipole.constructor | hnn_core/dipole.py:202-208 | the columns 0, 1, 2 become `agg`, `L2`, `L5`; units 'fAm'; `sfreq = 1000 / (t1 - t0)`; one sample per row |
| Dipoles.Dipole.Duplicate | hnn_core/dipole.py:210-218 | the deep copy's constructor: every field equal to the source object's |
| Dipoles.Dipole.Copy | hnn_core/dipole.py:210-218 | a fresh object with every field equal to the original's |
| Dipoles.Dipole.ScaleEachLayer | hnn_core/dipole.py:249-251 | the key loop leaves every layer multiplied by the factor and nothing else changed |
| Dipoles.Dipole.ConvertFAmToNAm | hnn_core/dipole.py:242-247 | every layer times `1e-6` and units 'nAm' |
| Dipoles.Dipole.Scale | hnn_core/dipole.py:249-252 | every layer times `fctr`; the object itself is returned |
| Dipoles.ScaleAllAggIsSum | hnn_core/dipole.py:249-251 | scaling keeps `agg == L2 + L5` |
| Dipoles.ScaleAllCompose | hnn_core/dipole.py:234-236 | conversion followed by scaling is one scaling by the product |
| Dipoles.RegimeOf | hnn_core/dipole.py:399-403 | the three time masks partition the axis: every time is in exactly one |
| Dipoles.Renormalized | hnn_core/dipole.py:376-406 | the renormalised layers keep their shape and satisfy `agg == L2 + L5`; every L2 sample loses `npyr * 0.0443` and every L5 sample loses the offset of the regime its time lies in |
| Dipoles.MaskedPassesArePiecewise | hnn_core/dipole.py:399-403 | the three masked subtractions (`SubtractInRegime`) equal the per-sample correction of the one regime each time lies in |
| Dipoles.RenormalizeTwice | hnn_core/dipole.py:351-406 | renormalising twice subtracts every offset twice (not idempotent) |
| Dipoles.Dipole.BaselineRenormalize | hnn_core/dipole.py:351-406 | warns and changes nothing unless the units are 'fAm'; otherwise the layers become `Renormalized` |
| Dipoles.PlanSmooth | hnn_core/dipole.py:284-311 | raises exactly for both or neither argument, a window longer than the data, or a cutoff that is negative, zero or not below half the rate; skips exactly for a window of at most one sample; the savgol branch passes exactly when `_savgol_filter`'s own range checks pass, so the cutoffs in `(sfreq / 5.5, sfreq / 2)` that SciPy refuses pass here |
| Dipoles.HalfRateRejectedBySavgol | hnn_core/dipole.py:302-311 | a cutoff of exactly half the rate passes `smooth`'s check and is refused by `_savgol_filter`; a larger one is refused by `smooth` |
| Dipoles.HammingSmoothedAggIsSum | hnn_core/dipole.py:299-300 | Hamming smoothing of every layer keeps `agg == L2 + L5` |
| Dipoles.Dipole.SmoothHamming | hnn_core/dipole.py:299-300 | the key loop leaves every layer Hamming-smoothed |
| Dipoles.Dipole.SmoothSavgol | hnn_core/dipole.py:308-311 | the key loop fails on the first layer or not at all; on failure nothing changed |
| Dipoles.Dipole.Smooth | hnn_core/dipole.py:254-312 | errors and the short-window case leave the data unchanged; otherwise the layers are smoothed by the planned filter and the object is returned |
| Dipoles.PostProcWindowRoundTrip | hnn_core/dipole.py:237-240 | the window converted to milliseconds and back by `smooth` (`WindowSamples`, dipole.py:290) is the `winsz` samples given |
| Dipoles.Dipole.Rescale | hnn_core/dipole.py:234-236 | baseline for 'fAm' data, then conversion and scaling together multiply the layers by `1e-6 * fctr`; units become 'nAm' |
| Dipoles.Dipole.PostProc | hnn_core/dipole.py:220-240 | baseline (only for 'fAm'), scaling by `1e-6 * fctr`, then Hamming smoothing over `winsz` samples; when smoothing raises, the earlier steps stay applied |
| Dipoles.PostProcAggIsSum | hnn_core/dipole.py:220-240 | after post-processing, `agg == L2 + L5` still holds |
| Dipoles.FirstAveraged | hnn_core/dipole.py:154-158 | the first input whose `nave > 1`, or none exactly when every `nave <= 1` |
| Dipoles.AverageCheck | hnn_core/dipole.py:150-158 | fewer than two inputs raises; the first input already averaged is reported with its `nave`; passes exactly when there are two or more inputs, none averaged, all equally long |
| Dipoles.ReaverageRejected | hnn_core/dipole.py:154-158 | an input with `nave >= 2` makes the average fail at or before that index |
| Dipoles.AveragedData | hnn_core/dipole.py:160-162 | the per-key means have the common length |
| Dipoles.AveragedAggIsSum | hnn_core/dipole.py:160-162 | averaging trials with `agg == L2 + L5` keeps it |
| Dipoles.AveragedIdentical | hnn_core/dipole.py:160-162 | the average of identical trials is that trial |
| Dipoles.AveragedScaled | hnn_core/dipole.py:160-162 | averaging commutes with scaling |
| Dipoles.Stacked | hnn_core/dipole.py:164-166 | the stacked columns come back out of `Column` unchanged |
| Dipoles.NewAverage | hnn_core/dipole.py:168-171 | the new dipole holds exactly the averaged layers, `nave` the count, units 'fAm' |
| Dipoles.CheckAverageable | hnn_core/dipole.py:150-158 | the checking loop returns exactly `AverageCheck` of the inputs' counts and lengths |
| Dipoles.AverageDipoles | hnn_core/dipole.py:134-173 | raises exactly when `AverageCheck` fails; otherwise a fresh valid dipole on the first input's times with the means, `nave == len(dpls)` and units 'fAm' |
| Arrays.StrideLengthCeil | hnn_core/viz.py:48 | `x[::d]` has `ceil(n / d)` samples |
| Arrays.StrideCompose | hnn_core/viz.py:46-48 | striding by `a` then by `b` is striding by `a * b` |
| Viz.CheckScalingUnits | hnn_core/viz.py:10-21 | `None` becomes 1 and ''; succeeds exactly for a float (or None) scaling and a string (or None) units, in that order of checks |
| Viz.PlotTmin | hnn_core/viz.py:25-27 | the lower bound is `max(tmin, t0)`: at least both, and equal to one of them |
| Viz.PlotTmax | hnn_core/viz.py:28-30 | the upper bound is `min(tmax, t_last)`: at most both, and equal to one of them |
| Viz.MaskFrom | hnn_core/viz.py:32 | every kept index is in the half-open window |
| Viz.MaskIncreasing | hnn_core/viz.py:32 | the kept indices are strictly increasing, so the samples keep their order |
| Viz.MaskComplete | hnn_core/viz.py:32 | every sample in the window is kept |
| Viz.GetPlotData | hnn_core/viz.py:24-36 | exactly the samples with `max(tmin, t0) <= t < min(tmax, t_last)`, data `scaling * layer` at the same indices, equal lengths |
| Viz.NoBoundsDropsLast | hnn_core/viz.py:25-34 | on an increasing axis with no bounds, only the last sample is dropped |
| Viz.ProductPositive | hnn_core/viz.py:53 | the product of positive factors is positive |
| Viz.StrideAllIsProduct | hnn_core/viz.py:46-53 | striding by each factor in turn is one stride by their product, leaving `ceil(n / prod)` samples |
| Viz.DecimateAllLength | hnn_core/viz.py:46-48 | decimated data stay as long as the decimated times |
| Viz.ApplyFactors | hnn_core/viz.py:46-48 | fails exactly when some factor is not a positive int, at the first one; otherwise the data are decimated and the times strided by every factor in order |
| Viz.DecimatePlotData | hnn_core/viz.py:39-54 | an int is promoted to a list and any other type raises; on success the rate is divided by the product of the factors |
| Viz.CheckNfft | hnn_core/viz.py:519-532 | raises when `n_per_seg` is None and `n_fft > n`; otherwise clamps `n_per_seg` to `n_fft` and `n` and raises exactly when `n_overlap >=` the clamped value; `n_fft` and `n_overlap` are returned unchanged |
| Viz.WelchDefaultsClamp | hnn_core/viz.py:526-531 | an oversized segment with zero overlap is clamped, not refused |
| Viz.ZeroPadded | hnn_core/viz.py:414-416 | length `3L - 2`, zeros on both sides, middle slice equal to the signal |
| Viz.MirrorPadded | hnn_core/viz.py:417-418 | length `3L - 2`, reflections about the first and last samples, middle slice equal to the signal |
| Viz.PySlice | hnn_core/viz.py:427 | a clamped slice; an in-range one is the ordinary subsequence |
| Viz.TfrTimeAxisAsWritten | hnn_core/viz.py:411-427 | pads, then crops with `Crop` (viz.py:427) whenever padding is given; no padding or a named one returns the signal's axis; a non-string padding raises |
| Viz.UnknownPaddingCollapsesAxis | hnn_core/viz.py:411-427 | an unknown padding name leaves one sample against three times |
| Viz.TfrTimeAxis | hnn_core/viz.py:411-427 | corrected: refuses unknown names, and every success returns the signal's own axis |
| Viz.InputTypes | hnn_core/viz.py:189-190 | exactly the observed types that are not cell types |
| Viz.Dedup | hnn_core/viz.py:200-201 | the same names, each once |
| Viz.Singletons | hnn_core/viz.py:200-201 | one group per distinct name, labelled by it and listing only it |
| Viz.GroupLists | hnn_core/viz.py:202-207 | the dict passes exactly when every value is a list; the first non-list raises with its key |
| Viz.DefaultNames | hnn_core/viz.py:195-199 | the input types if any is a non-empty string, otherwise all observed types |
| Viz.NormalizeSpikeTypes | hnn_core/viz.py:192-210 | a string is its own group; None and a list give one group per name; a dict is checked; any other type raises |
| Viz.PairsMembers | hnn_core/viz.py:213-214 | a (label, prefix) pair is visited exactly when the prefix is listed under the label |
| Viz.ScanSpec | hnn_core/viz.py:216-224 | a prefix's scan (`ScanFrom`, the inner loop) succeeds exactly when none of its matches is labelled yet, then labels exactly its matches, keeps the earlier labels and counts zero only when nothing matched; a failure names an already labelled match |
| Viz.ResolveSpikeLabels | hnn_core/viz.py:212-226 | the nested loops compute the recursive resolution `ResolvePairs` |
| Viz.ResolveSpec | hnn_core/viz.py:212-226 | succeeds exactly when every prefix matches, no type is matched twice and no match is already labelled; the result labels each matched type with its pair's label |
| Viz.SpikeLabelsMeaning | hnn_core/viz.py:212-226 | on distinct observed types: success iff every prefix matches and no type is matched twice; each labelled type starts with a prefix listed under its label |
| Viz.LabelsSound | hnn_core/viz.py:212-226 | every labelled type was observed and starts with a prefix listed under its label |
| Viz.PrefixesFound | hnn_core/viz.py:225-226 | every requested prefix matched at least one observed type |
| Viz.LabelsComplete | hnn_core/viz.py:216-224 | every observed type a prefix matches carries that prefix's label |
| Viz.PrefixCollision | hnn_core/viz.py:195-226 | with `spike_types=None`, two input types where one name starts with the other make the resolution raise for the longer one |
| Viz.DefaultPrefixCollision | hnn_core/viz.py:195-226 | with `spike_types=None`, types `evprox1` and `evprox10` make the resolution raise for `evprox10`, which the prefix `evprox1` already labelled |
| Drives.GetTargetPopulations | hnn_core/drives.py:9-16 | None maps become empty, and the targets are the union of both maps' keys |
| Drives.CheckDriveParameterValues | hnn_core/drives.py:19-50 | each of the eight errors exactly when its keywords are present and out of range and every earlier check passed: a zero `burst_rate` is the division error and a non-zero one whose burst does not fit is `BurstTooLong`; passes exactly when every present keyword is in range |
| Drives.AbsentKeysImposeNothing | hnn_core/drives.py:19-50 | dropping keywords from an accepted call keeps it accepted; no keywords is accepted |
| Drives.BurstPeriodExample | hnn_core/drives.py:44-50 | ten spikes 10 ms apart exceed a 50 ms burst period and fit a 100 ms one |
| Drives.ProvidedPopulations | hnn_core/drives.py:55 | exactly the dict's keys |
| Drives.Rates | hnn_core/drives.py:65-66 | a number is broadcast to every cell type, in order |
| Drives.CheckPoissonRates | hnn_core/drives.py:53-70 | missing targets raise, then unknown keys (reported as the difference); then passes exactly when every rate is positive, else reports the first |
| Drives.UniformRate | hnn_core/drives.py:65-70 | a broadcast number passes exactly when it is positive or there are no cell types |

## Left out

- `simulate_dipole` (hnn_core/dipole.py:58-111) depends on the parallel simulation backends and the `Network` simulation. It is not part of this model.
- `read_dipole` and `Dipole.write` are file I/O and float text formatting. Their units-tag rule and their `nave > 1` warning are not modelled.
- The plotting functions draw with matplotlib. Only the argument checks and window arithmetic named above are modelled. This includes the histogram drawing, bins and colours of `plot_spikes_hist`, which use the insertion order of the labels.
- SciPy, NumPy and MNE numerics are parameters, with only their lengths assumed (`ValidLib`, `ValidDecimate`). This covers the Hamming window values, `savgol_filter` (its own window checks included), `decimate` (its own minimum-length check included), `welch` and `tfr_array_morlet`.
- `SavgolFilter`, `PlanSmooth`: SciPy's refusals inside `savgol_filter` are not modelled, so these succeed where the source raises. With `polyorder=5`, every cutoff in `(sfreq / 5.5, sfreq / 2)` gives a window of 3 or 5 points (`SavgolWindowAtMostFive`), which SciPy refuses. A window longer than the data is also refused in its default `interp` mode.
- `TfrTimeAxisAsWritten`, `TfrTimeAxis`: the Morlet transform is taken to keep the length of its input, so the crop is applied to the padded signal. A signal of at least one sample is required, because `zeros(-1)` is the empty-window case NumPy refuses.
- Floating point is modelled as reals: no rounding, overflow, NaN or infinity. A zero `burst_rate` is the Python `ZeroDivisionError` (`ZeroBurstRate`).
- `Dipoles.Dipole.constructor` requires one row of at least three columns per time and two distinct first times. The source does not check these; NumPy fails later or divides by zero.
- The constructor's layers are views of the caller's array in NumPy, so in-place updates would show through that array. The model copies.
- `AverageDipoles`: layers of unequal length are the error `RaggedTrials`, where NumPy fails while stacking them.
- Dynamic types are reduced to the cases the code distinguishes. A `bool` passed as an int factor, non-string elements of a `spike_types` list, and non-numeric rates are not modelled.
- The observed spike types must be distinct (the output of `np.unique`), but may come in any order. `np.unique` sorting them only fixes which error is raised first.
- `_add_drives_from_params` (hnn_core/drives.py:73-140) dispatches to `Network` methods and parameter helpers that are not part of this model.
- `CheckPoissonRates`: a rate dict is a sequence of (key, value) entries in insertion order. The model does not require the keys to be unique, as a dict's are.
- The demo script plot_simulate_alpha.py is not part of this model.

## Findings

| source | as written | input that shows it | evidently intended | confidence | as-written member | corrected member |
|---|---|---|---|---|---|---|
| hnn_core/viz.py:411-427 | a padding string other than 'zeros' or 'mirror' pads nothing but is still cropped to `[L-1, 2L-1)` | `padding='edge'` on a 3-sample signal leaves 1 time point against `times` of length 3 | refuse unknown padding names, so the cropped power always lines up with `times` | medium, not executed | Viz.TfrTimeAxisAsWritten (Viz.UnknownPaddingCollapsesAxis) | Viz.TfrTimeAxis |
