/** The analysis-parameter helpers of hnn_core/viz.py: argument checks,
    time-window extraction, decimation bookkeeping, Welch segment
    normalisation, Morlet edge padding and cropping, and the resolution of
    spike-type labels. Drawing is not modelled; the SciPy and MNE numerics
    are supplied from outside. */
module Viz {
  import opened Common
  import opened Arrays

  /** The dynamically typed arguments these helpers inspect with
      `isinstance`. */
  datatype PyValue =
    | PyNone
    | PyInt(i: int)
    | PyFloat(x: real)
    | PyStr(s: string)
    | PyList(items: seq<PyValue>)
    | PyOther

  /** The exceptions these helpers raise. */
  datatype VizError =
    | ScalingNotFloat
    | UnitsNotString
    | DecimNotIntOrList
    | BadDecimFactor(index: nat)          // raised inside `scipy.signal.decimate`
    | NfftExceedsSignal(nFft: int, n: int)
    | OverlapTooLarge(nOverlap: int, nPerSeg: int)
    | PaddingNotString
    | UnknownPadding(name: string)
    | SpikeTypesWrongType
    | SpikeTypesValueNotList(spikeLabel: string)
    | SpikeTypeFoundTwice(spikeType: string)
    | NoSpikeTypeFound(prefix: string)

  // ---------------------------------------------------------------------
  // _check_scaling_units

  /** `_check_scaling_units(scaling, units)`: `None` stands for no scaling
      (`1`) and no units (`''`); anything else must be a float and a string
      respectively, checked in that order. An int scaling is refused. */
  function CheckScalingUnits(scaling: PyValue, units: PyValue): (r: Result<(real, string), VizError>)
    ensures r.Ok? <==> (scaling.PyFloat? || scaling.PyNone?) && (units.PyStr? || units.PyNone?)
    ensures r.Ok? ==> r.value.0 == (if scaling.PyNone? then 1.0 else scaling.x)
    ensures r.Ok? ==> r.value.1 == (if units.PyNone? then "" else units.s)
    ensures !(scaling.PyFloat? || scaling.PyNone?) ==> r == Err(ScalingNotFloat)
    ensures (scaling.PyFloat? || scaling.PyNone?) && !(units.PyStr? || units.PyNone?) ==> r == Err(UnitsNotString)
  {
    if !scaling.PyFloat? && !scaling.PyNone? then Err(ScalingNotFloat)
    else if !units.PyStr? && !units.PyNone? then Err(UnitsNotString)
    else
      var f := if scaling.PyNone? then 1.0 else scaling.x;
      var u := if units.PyNone? then "" else units.s;
      Ok((f, u))
  }

  // ---------------------------------------------------------------------
  // _get_plot_data

  /** `max(tmin, times[0])`, or `times[0]` without a lower bound. */
  function PlotTmin(times: seq<real>, tmin: Option<real>): (r: real)
    requires |times| > 0
    ensures r >= times[0] && (tmin.Some? ==> r >= tmin.value)
    ensures r == times[0] || (tmin.Some? && r == tmin.value)
  {
    if tmin.Some? && tmin.value > times[0] then tmin.value else times[0]
  }

  /** `min(tmax, times[-1])`, or `times[-1]` without an upper bound. */
  function PlotTmax(times: seq<real>, tmax: Option<real>): (r: real)
    requires |times| > 0
    ensures r <= times[|times| - 1] && (tmax.Some? ==> r <= tmax.value)
    ensures r == times[|times| - 1] || (tmax.Some? && r == tmax.value)
  {
    if tmax.Some? && tmax.value < times[|times| - 1] then tmax.value else times[|times| - 1]
  }

  /** The indices, from `k` on and in increasing order, of the samples in the
      half-open window `[lo, hi)`: the `np.logical_and` mask as a list of
      positions. */
  function MaskFrom(times: seq<real>, lo: real, hi: real, k: nat): (idx: seq<nat>)
    requires k <= |times|
    decreases |times| - k
    ensures forall j :: 0 <= j < |idx| ==> k <= idx[j] < |times| && lo <= times[idx[j]] < hi
  {
    if k == |times| then []
    else if lo <= times[k] < hi then [k] + MaskFrom(times, lo, hi, k + 1)
    else MaskFrom(times, lo, hi, k + 1)
  }

  /** The mask keeps the samples in their order on the time axis. */
  lemma {:induction false} MaskIncreasing(times: seq<real>, lo: real, hi: real, k: nat)
    requires k <= |times|
    ensures forall j1, j2 :: 0 <= j1 < j2 < |MaskFrom(times, lo, hi, k)| ==>
      MaskFrom(times, lo, hi, k)[j1] < MaskFrom(times, lo, hi, k)[j2]
    decreases |times| - k
  {
    if k < |times| {
      MaskIncreasing(times, lo, hi, k + 1);
      var idx, rest := MaskFrom(times, lo, hi, k), MaskFrom(times, lo, hi, k + 1);
      forall j1, j2 | 0 <= j1 < j2 < |idx| ensures idx[j1] < idx[j2] {
        if lo <= times[k] < hi {
          assert idx == [k] + rest;
          assert idx[j2] == rest[j2 - 1];
          if j1 > 0 {
            assert idx[j1] == rest[j1 - 1];
          }
        } else {
          assert idx == rest;
        }
      }
    }
  }


  /** No sample of the window is missed by the mask. */
  lemma {:induction false} MaskComplete(times: seq<real>, lo: real, hi: real, k: nat, i: nat)
    requires k <= i < |times| && lo <= times[i] < hi
    ensures i in MaskFrom(times, lo, hi, k)
    decreases |times| - k
  {
    if k < i {
      MaskComplete(times, lo, hi, k + 1, i);
    }
  }

  datatype PlotData = PlotData(data: seq<real>, times: seq<real>)

  /** `_get_plot_data(dpl, layer, tmin, tmax, scaling)` on the dipole's time
      axis and one layer: exactly the samples with
      `max(tmin, t0) <= t < min(tmax, t_last)`, the data scaled, both taken
      at the same indices in the same order. */
  function GetPlotData(times: seq<real>, layer: seq<real>, tmin: Option<real>, tmax: Option<real>, scaling: real): (r: PlotData)
    requires |times| > 0 && |layer| == |times|
    ensures |r.data| == |r.times|
    ensures forall j :: 0 <= j < |r.times| ==>
      PlotTmin(times, tmin) <= r.times[j] < PlotTmax(times, tmax)
    ensures forall i :: 0 <= i < |times| && PlotTmin(times, tmin) <= times[i] < PlotTmax(times, tmax) ==>
      times[i] in r.times
    ensures |r.times| <= |times|
    ensures var idx := PlotIndices(times, tmin, tmax);
      |idx| == |r.times| && forall j :: 0 <= j < |idx| ==>
        r.times[j] == times[idx[j]] && r.data[j] == scaling * layer[idx[j]]
  {
    var idx := PlotIndices(times, tmin, tmax);
    var r := Pick(times, layer, idx, scaling);
    WindowComplete(times, PlotTmin(times, tmin), PlotTmax(times, tmax), idx, r.times);
    MaskLength(times, PlotTmin(times, tmin), PlotTmax(times, tmax), 0);
    r
  }

  /** The positions of the samples `_get_plot_data` keeps. */
  function PlotIndices(times: seq<real>, tmin: Option<real>, tmax: Option<real>): seq<nat>
    requires |times| > 0
  {
    MaskFrom(times, PlotTmin(times, tmin), PlotTmax(times, tmax), 0)
  }

  /** `times[mask]` and `scaling * layer[mask]` for the mask positions `idx`. */
  function Pick(times: seq<real>, layer: seq<real>, idx: seq<nat>, scaling: real): (r: PlotData)
    requires |layer| == |times| && forall j :: 0 <= j < |idx| ==> idx[j] < |times|
    ensures |r.times| == |idx| && |r.data| == |idx|
    ensures forall j :: 0 <= j < |idx| ==> r.times[j] == times[idx[j]] && r.data[j] == scaling * layer[idx[j]]
  {
    PlotData(seq(|idx|, j requires 0 <= j < |idx| => scaling * layer[idx[j]]),
             seq(|idx|, j requires 0 <= j < |idx| => times[idx[j]]))
  }

  lemma WindowComplete(times: seq<real>, lo: real, hi: real, idx: seq<nat>, ts: seq<real>)
    requires idx == MaskFrom(times, lo, hi, 0)
    requires |ts| == |idx| && forall j :: 0 <= j < |idx| ==> ts[j] == times[idx[j]]
    ensures forall i :: 0 <= i < |times| && lo <= times[i] < hi ==> times[i] in ts
  {
    forall i | 0 <= i < |times| && lo <= times[i] < hi ensures times[i] in ts {
      MaskComplete(times, lo, hi, 0, i);
      var j :| 0 <= j < |idx| && idx[j] == i;
      assert ts[j] == times[i];
    }
  }

  /** The mask from `k` keeps at most the `|times| - k` samples it looks at. */
  lemma {:induction false} MaskLength(times: seq<real>, lo: real, hi: real, k: nat)
    requires k <= |times|
    ensures |MaskFrom(times, lo, hi, k)| <= |times| - k
    decreases |times| - k
  {
    if k < |times| {
      MaskLength(times, lo, hi, k + 1);
    }
  }

  predicate StrictlyIncreasing(times: seq<real>)
  {
    forall i, j :: 0 <= i < j < |times| ==> times[i] < times[j]
  }

  /** `list(range(a, b))`. */
  function Range(a: nat, b: nat): (r: seq<nat>)
    requires a <= b
    ensures |r| == b - a && forall j :: 0 <= j < |r| ==> r[j] == a + j
  {
    seq(b - a, j requires 0 <= j < b - a => a + j)
  }

  lemma {:induction false} MaskAllButLast(times: seq<real>, k: nat)
    requires StrictlyIncreasing(times) && k < |times|
    ensures MaskFrom(times, times[0], times[|times| - 1], k) == Range(k, |times| - 1)
    decreases |times| - k
  {
    var last := |times| - 1;
    var lo, hi := times[0], times[last];
    if k == last {
      assert !(times[k] < hi);
      assert MaskFrom(times, lo, hi, k) == MaskFrom(times, lo, hi, k + 1);
    } else {
      MaskAllButLast(times, k + 1);
      assert lo <= times[k] by {
        if k > 0 {
          assert times[0] < times[k];
        }
      }
      assert times[k] < hi;
      assert MaskFrom(times, lo, hi, k) == [k] + MaskFrom(times, lo, hi, k + 1);
      assert [k] + Range(k + 1, last) == Range(k, last);
    }
  }

  /** On an increasing time axis with no bounds, the half-open window drops
      exactly the final sample. */
  lemma NoBoundsMask(times: seq<real>)
    requires |times| > 0 && StrictlyIncreasing(times)
    ensures MaskFrom(times, PlotTmin(times, None), PlotTmax(times, None), 0) == Range(0, |times| - 1)
  {
    MaskAllButLast(times, 0);
  }

  lemma NoBoundsDropsLast(times: seq<real>, layer: seq<real>, scaling: real)
    requires |times| > 0 && |layer| == |times| && StrictlyIncreasing(times)
    ensures GetPlotData(times, layer, None, None, scaling).times == times[..|times| - 1]
    ensures GetPlotData(times, layer, None, None, scaling).data == Scaled(layer[..|layer| - 1], scaling)
  {
    NoBoundsMask(times);
    WholeWindow(times, layer, scaling);
  }

  /** A window whose mask is every index but the last keeps the first
      `n - 1` samples. */
  lemma WholeWindow(times: seq<real>, layer: seq<real>, scaling: real)
    requires |times| > 0 && |layer| == |times|
    requires MaskFrom(times, PlotTmin(times, None), PlotTmax(times, None), 0) == Range(0, |times| - 1)
    ensures GetPlotData(times, layer, None, None, scaling).times == times[..|times| - 1]
    ensures GetPlotData(times, layer, None, None, scaling).data == Scaled(layer[..|layer| - 1], scaling)
  {
    var idx := PlotIndices(times, None, None);
    var r := Pick(times, layer, idx, scaling);
    assert GetPlotData(times, layer, None, None, scaling) == r;
    PickedPrefix(times, layer, scaling, idx, r.times, r.data);
  }

  /** Taking the samples at `0, 1, ..., n - 2` is the prefix. */
  lemma PickedPrefix(times: seq<real>, layer: seq<real>, scaling: real, idx: seq<nat>, ts: seq<real>, ds: seq<real>)
    requires |times| > 0 && |layer| == |times| && idx == Range(0, |times| - 1)
    requires |ts| == |idx| && |ds| == |idx|
    requires forall j :: 0 <= j < |idx| ==> ts[j] == times[idx[j]] && ds[j] == scaling * layer[idx[j]]
    ensures ts == times[..|times| - 1] && ds == Scaled(layer[..|layer| - 1], scaling)
  {
    var last := |times| - 1;
    forall j | 0 <= j < last ensures ts[j] == times[j] && ds[j] == scaling * layer[j] {
      assert idx[j] == j;
    }
    assert ts == times[..last];
    var want := Scaled(layer[..last], scaling);
    forall j | 0 <= j < last ensures ds[j] == want[j] {
      assert want[j] == scaling * layer[j];
    }
  }

  // ---------------------------------------------------------------------
  // _decimate_plot_data

  /** `scipy.signal.decimate(x, q)`, supplied from outside. */
  datatype DecimateLib = DecimateLib(decimate: (seq<real>, int) -> seq<real>)

  /** What the model relies on of it: the output keeps every `q`-th sample
      of the filtered signal, so it has `ceil(|x| / q)` samples. */
  ghost predicate ValidDecimate(lib: DecimateLib)
  {
    forall x: seq<real>, q: int :: q > 0 ==> |lib.decimate(x, q)| == (|x| + q - 1) / q
  }

  /** An element of the factor list that `decimate` accepts: a positive int. */
  predicate GoodFactor(v: PyValue)
  {
    v.PyInt? && v.i > 0
  }

  function Ints(items: seq<PyValue>): (qs: seq<int>)
    requires forall j :: 0 <= j < |items| ==> GoodFactor(items[j])
    ensures |qs| == |items| && forall j :: 0 <= j < |qs| ==> items[j] == PyInt(qs[j]) && qs[j] > 0
  {
    if |items| == 0 then []
    else
      var last := items[|items| - 1];
      assert GoodFactor(last);
      Ints(items[..|items| - 1]) + [last.i]
  }

  predicate AllPositive(qs: seq<int>)
  {
    forall j :: 0 <= j < |qs| ==> qs[j] > 0
  }

  /** `np.prod(qs)`. */
  function Product(qs: seq<int>): int
  {
    if |qs| == 0 then 1 else Product(qs[..|qs| - 1]) * qs[|qs| - 1]
  }

  /** `times[::q1][::q2]...` for the factors in order. */
  function StrideAll(s: seq<real>, qs: seq<int>): seq<real>
    requires AllPositive(qs)
  {
    if |qs| == 0 then s else Stride(StrideAll(s, qs[..|qs| - 1]), qs[|qs| - 1])
  }

  /** `decimate(decimate(x, q1), q2)...` for the factors in order. */
  function DecimateAll(lib: DecimateLib, x: seq<real>, qs: seq<int>): seq<real>
  {
    if |qs| == 0 then x else lib.decimate(DecimateAll(lib, x, qs[..|qs| - 1]), qs[|qs| - 1])
  }

  /** The product of positive factors is positive. */
  lemma {:induction false} ProductPositive(qs: seq<int>)
    requires AllPositive(qs)
    ensures Product(qs) > 0
  {
    if |qs| > 0 {
      ProductPositive(qs[..|qs| - 1]);
      var p := Product(qs[..|qs| - 1]);
      MulMono(1, p, qs[|qs| - 1]);
    }
  }

  /** Striding by each factor in turn is striding once by their product,
      so the decimated time axis has `ceil(n / prod(qs))` samples. */
  lemma {:induction false} StrideAllIsProduct(s: seq<real>, qs: seq<int>)
    requires AllPositive(qs)
    ensures Product(qs) > 0
    ensures StrideAll(s, qs) == Stride(s, Product(qs))
    ensures |StrideAll(s, qs)| == (|s| + Product(qs) - 1) / Product(qs)
  {
    ProductPositive(qs);
    if |qs| == 0 {
      StrideOne(s);
    } else {
      var init, q := qs[..|qs| - 1], qs[|qs| - 1];
      StrideAllIsProduct(s, init);
      StrideCompose(s, Product(init), q);
    }
    StrideLengthCeil(s, Product(qs));
  }

  /** Decimated data stay as long as the decimated time axis. */
  lemma {:induction false} DecimateAllLength(lib: DecimateLib, x: seq<real>, s: seq<real>, qs: seq<int>)
    requires ValidDecimate(lib) && AllPositive(qs) && |x| == |s|
    ensures |DecimateAll(lib, x, qs)| == |StrideAll(s, qs)|
  {
    if |qs| > 0 {
      var init, q := qs[..|qs| - 1], qs[|qs| - 1];
      DecimateAllLength(lib, x, s, init);
      StrideLengthCeil(StrideAll(s, init), q);
    }
  }

  datatype Decimated = Decimated(data: seq<real>, times: seq<real>, sfreq: Option<real>)

  /** The factor list after an int is promoted to a one-element list. */
  function FactorItems(decim: PyValue): seq<PyValue>
  {
    match decim
    case PyInt(_) => [decim]
    case PyList(items) => items
    case _ => []
  }

  /** `_decimate_plot_data(decim, data, times, sfreq)`. An int factor is
      promoted to a list and anything else but a list is refused; each
      factor then decimates the data and strides the time axis, the first
      factor that is not a positive int raising; the sampling rate, if
      given, is divided by the product of the factors. */
  method DecimatePlotData(decim: PyValue, data: seq<real>, times: seq<real>, sfreq: Option<real>, lib: DecimateLib)
    returns (r: Result<Decimated, VizError>)
    ensures !decim.PyInt? && !decim.PyList? ==> r == Err(DecimNotIntOrList)
    ensures (decim.PyInt? || decim.PyList?) ==>
      var items := FactorItems(decim);
      && (r.Err? <==> exists j :: 0 <= j < |items| && !GoodFactor(items[j]))
      && (r.Err? ==>
            && r.error.BadDecimFactor? && r.error.index < |items| && !GoodFactor(items[r.error.index])
            && forall j :: 0 <= j < r.error.index ==> GoodFactor(items[j]))
      && (r.Ok? ==>
            var qs := Ints(items);
            && AllPositive(qs) && Product(qs) > 0
            && r.value.data == DecimateAll(lib, data, qs)
            && r.value.times == StrideAll(times, qs)
            && r.value.sfreq == if sfreq.None? then None else Some(sfreq.value / (Product(qs) as real)))
  {
    if !decim.PyInt? && !decim.PyList? {
      return Err(DecimNotIntOrList);
    }
    var items := FactorItems(decim);
    var applied := ApplyFactors(items, data, times, lib);
    if applied.Err? {
      return Err(BadDecimFactor(applied.error));
    }
    var qs := Ints(items);
    ProductPositive(qs);
    var rate := if sfreq.None? then None else Some(sfreq.value / (Product(qs) as real));
    return Ok(Decimated(applied.value.0, applied.value.1, rate));
  }

  /** One more factor: one more decimation and one more stride. */
  lemma StepFactor(lib: DecimateLib, data: seq<real>, times: seq<real>, items: seq<PyValue>, j: nat)
    requires j < |items| && forall k :: 0 <= k <= j ==> GoodFactor(items[k])
    ensures AllPositive(Ints(items[..j])) && AllPositive(Ints(items[..j + 1]))
    ensures DecimateAll(lib, data, Ints(items[..j + 1])) == lib.decimate(DecimateAll(lib, data, Ints(items[..j])), items[j].i)
    ensures StrideAll(times, Ints(items[..j + 1])) == Stride(StrideAll(times, Ints(items[..j])), items[j].i)
  {
    var before := Ints(items[..j]);
    assert items[..j + 1][..j] == items[..j];
    var after := Ints(items[..j + 1]);
    assert after == before + [items[j].i];
    assert after[..|after| - 1] == before;
  }

  /** The loop of `_decimate_plot_data`: each factor in turn decimates the
      data and strides the time axis; the first factor that is not a
      positive int stops it, with its index. */
  method ApplyFactors(items: seq<PyValue>, data: seq<real>, times: seq<real>, lib: DecimateLib)
    returns (r: Result<(seq<real>, seq<real>), nat>)
    ensures r.Err? <==> exists j :: 0 <= j < |items| && !GoodFactor(items[j])
    ensures r.Err? ==>
      && r.error < |items| && !GoodFactor(items[r.error])
      && forall j :: 0 <= j < r.error ==> GoodFactor(items[j])
    ensures r.Ok? ==>
      && (forall j :: 0 <= j < |items| ==> GoodFactor(items[j]))
      && r.value.0 == DecimateAll(lib, data, Ints(items))
      && r.value.1 == StrideAll(times, Ints(items))
  {
    var d, t := data, times;
    for j := 0 to |items|
      invariant forall k :: 0 <= k < j ==> GoodFactor(items[k])
      invariant d == DecimateAll(lib, data, Ints(items[..j]))
      invariant t == StrideAll(times, Ints(items[..j]))
    {
      var item := items[j];
      if !item.PyInt? || item.i <= 0 {
        return Err(j);
      }
      StepFactor(lib, data, times, items, j);
      d := lib.decimate(d, item.i);
      t := Stride(t, item.i);
    }
    assert items[..|items|] == items;
    return Ok((d, t));
  }

  // ---------------------------------------------------------------------
  // _check_nfft

  function Min(a: int, b: int): int
  {
    if a < b then a else b
  }

  datatype WelchParams = WelchParams(nFft: int, nPerSeg: int, nOverlap: int)

  /** `_check_nfft(n, n_fft, n_per_seg, n_overlap)`. Without a segment length
      the FFT may not be longer than the signal. The segment length defaults
      to `n_fft` and is then clamped to `n_fft` and to `n`, never refused;
      the overlap must be shorter than the clamped segment. */
  function CheckNfft(n: int, nFft: int, nPerSeg: Option<int>, nOverlap: int): (r: Result<WelchParams, VizError>)
    ensures r == Err(NfftExceedsSignal(nFft, n)) <==> nPerSeg.None? && nFft > n
    ensures !(nPerSeg.None? && nFft > n) ==>
      var clipped := Min(Min(if nPerSeg.None? then nFft else nPerSeg.value, nFft), n);
      && (r.Ok? <==> nOverlap < clipped)
      && (r.Err? ==> r == Err(OverlapTooLarge(nOverlap, clipped)))
    ensures r.Ok? ==> r.value.nFft == nFft && r.value.nOverlap == nOverlap
    ensures r.Ok? ==> r.value.nPerSeg <= nFft && r.value.nPerSeg <= n && nOverlap < r.value.nPerSeg
    ensures r.Ok? && nPerSeg.Some? && nPerSeg.value <= nFft && nPerSeg.value <= n ==>
      r.value.nPerSeg == nPerSeg.value
    ensures r.Ok? && nPerSeg.None? ==> r.value.nPerSeg == nFft
  {
    if nPerSeg.None? && nFft > n then Err(NfftExceedsSignal(nFft, n))
    else
      var seg := if nPerSeg.None? || nPerSeg.value > nFft then nFft else nPerSeg.value;
      var seg' := if seg > n then n else seg;
      if nOverlap >= seg' then Err(OverlapTooLarge(nOverlap, seg'))
      else Ok(WelchParams(nFft, seg', nOverlap))
  }

  /** With `plot_psd_welch`'s defaults (`n_fft = 2**14`, `n_per_seg = 2**12`,
      `n_overlap = 0`) on a 1000-sample window, the oversized segment is
      clamped to the signal instead of raising. */
  lemma WelchDefaultsClamp()
    ensures CheckNfft(1000, 16384, Some(4096), 0) == Ok(WelchParams(16384, 1000, 0))
    ensures CheckNfft(1000, 16384, None, 0) == Err(NfftExceedsSignal(16384, 1000))
  {
  }

  // ---------------------------------------------------------------------
  // Morlet edge padding and cropping in plot_tfr_morlet

  /** `np.r_[zeros(L - 1), data, zeros(L - 1)]`. */
  function ZeroPadded(d: seq<real>): (r: seq<real>)
    requires |d| >= 1
    ensures |r| == 3 * |d| - 2
    ensures r[|d| - 1 .. 2 * |d| - 1] == d
    ensures forall i :: 0 <= i < |d| - 1 ==> r[i] == 0.0
    ensures forall i :: 2 * |d| - 1 <= i < |r| ==> r[i] == 0.0
  {
    var pad := Zeros(|d| - 1);
    var r := pad + d + pad;
    assert r[|d| - 1 .. 2 * |d| - 1] == d;
    r
  }

  /** `np.r_[data[-1:0:-1], data, data[-2::-1]]`: the signal reflected about
      its first and about its last sample. */
  function MirrorPadded(d: seq<real>): (r: seq<real>)
    requires |d| >= 1
    ensures |r| == 3 * |d| - 2
    ensures r[|d| - 1 .. 2 * |d| - 1] == d
    ensures forall i :: 0 <= i < |d| ==> r[i] == d[|d| - 1 - i]
    ensures forall i :: 2 * |d| - 2 <= i < |r| ==> r[i] == d[3 * |d| - 3 - i]
  {
    var left, right := Reverse(d[1..]), Reverse(d[..|d| - 1]);
    ReverseLength(d[1..]);
    ReverseLength(d[..|d| - 1]);
    var r := left + d + right;
    assert r[|d| - 1 .. 2 * |d| - 1] == d;
    forall i | 0 <= i < |d| ensures r[i] == d[|d| - 1 - i] {
      if i < |d| - 1 {
        ReverseAt(d[1..], i);
      }
    }
    forall i | 2 * |d| - 2 <= i < |r| ensures r[i] == d[3 * |d| - 3 - i] {
      if i > 2 * |d| - 2 {
        ReverseAt(d[..|d| - 1], i - (2 * |d| - 1));
      }
    }
    r
  }

  /** A Python slice `p[a:b]` with non-negative bounds: both clamped to the
      length, empty when they cross. */
  function PySlice(p: seq<real>, a: nat, b: nat): (r: seq<real>)
    ensures |r| <= |p|
    ensures a <= b <= |p| ==> r == p[a..b]
  {
    var lo := if a < |p| then a else |p|;
    var hi := if b < |p| then b else |p|;
    if hi < lo then [] else p[lo..hi]
  }

  /** `power[..., L - 1 : 2 * L - 1]` along the time axis, `L` the length of
      the unpadded time vector. */
  function Crop(p: seq<real>, l: nat): seq<real>
    requires l >= 1
  {
    PySlice(p, l - 1, 2 * l - 1)
  }

  /** The time axis `plot_tfr_morlet` pairs with `times`, as written: pad
      (for 'zeros' and 'mirror'), transform, crop. The Morlet transform keeps
      the length of its input and is not modelled, so the crop is applied to
      the padded signal itself. A padding string other than the two named
      ones pads nothing but is still cropped. */
  function TfrTimeAxisAsWritten(data: seq<real>, padding: PyValue): (r: Result<seq<real>, VizError>)
    requires |data| >= 1
    ensures padding.PyNone? ==> r == Ok(data)
    ensures !padding.PyNone? && !padding.PyStr? ==> r == Err(PaddingNotString)
    ensures padding == PyStr("zeros") || padding == PyStr("mirror") ==> r == Ok(data)
  {
    match padding
    case PyNone => Ok(data)
    case PyStr(name) =>
      var padded := if name == "zeros" then ZeroPadded(data) else if name == "mirror" then MirrorPadded(data) else data;
      Ok(Crop(padded, |data|))
    case _ => Err(PaddingNotString)
  }

  /** An unrecognised padding name leaves a time axis of one sample against a
      three-sample `times` vector. */
  lemma UnknownPaddingCollapsesAxis()
    ensures TfrTimeAxisAsWritten([1.0, 2.0, 3.0], PyStr("edge")) == Ok([3.0])
  {
    assert Crop([1.0, 2.0, 3.0], 3) == [3.0];
  }

  /** The same pipeline with unknown padding names refused: whenever it
      succeeds, the cropped axis is the original signal sample for sample. */
  function TfrTimeAxis(data: seq<real>, padding: PyValue): (r: Result<seq<real>, VizError>)
    requires |data| >= 1
    ensures r.Ok? ==> r.value == data
    ensures r.Err? <==> !padding.PyNone? && padding != PyStr("zeros") && padding != PyStr("mirror")
  {
    match padding
    case PyNone => Ok(data)
    case PyStr(name) =>
      if name == "zeros" then Ok(Crop(ZeroPadded(data), |data|))
      else if name == "mirror" then Ok(Crop(MirrorPadded(data), |data|))
      else Err(UnknownPadding(name))
    case _ => Err(PaddingNotString)
  }

  // ---------------------------------------------------------------------
  // Spike-type labels in plot_spikes_hist

  /** The cell (not input) spike types. */
  const CellTypes: seq<string> := ["L5_pyramidal", "L5_basket", "L2_pyramidal", "L2_basket"]

  /** `s.startswith(p)`. */
  predicate StartsWith(s: string, p: string)
  {
    |p| <= |s| && s[..|p|] == p
  }

  predicate Distinct(xs: seq<string>)
  {
    forall i, j :: 0 <= i < j < |xs| ==> xs[i] != xs[j]
  }

  /** `np.setdiff1d(unique_types, cell_types)`: the observed types that are
      not cell types, in their order. */
  function InputTypes(types: seq<string>): (r: seq<string>)
    ensures forall t :: t in r <==> t in types && t !in CellTypes
  {
    if |types| == 0 then []
    else
      var init, t := types[..|types| - 1], types[|types| - 1];
      assert types == init + [t];
      var rest := InputTypes(init);
      if t in CellTypes then rest else rest + [t]
  }

  /** The keys of `{s: [s] for s in names}`: each name once, at its first
      occurrence. */
  function Dedup(names: seq<string>): (r: seq<string>)
    ensures forall t :: t in r <==> t in names
    ensures Distinct(r)
  {
    if |names| == 0 then []
    else
      var init, t := names[..|names| - 1], names[|names| - 1];
      assert names == init + [t];
      var rest := Dedup(init);
      if t in rest then rest else rest + [t]
  }

  /** `{s: [s] for s in names}` as an ordered list of (label, prefixes). */
  function Singletons(names: seq<string>): (gs: seq<(string, seq<string>)>)
    ensures forall g :: g in gs ==> g.1 == [g.0] && g.0 in names
    ensures forall t :: t in names ==> (t, [t]) in gs
    ensures forall i, j :: 0 <= i < j < |gs| ==> gs[i].0 != gs[j].0
  {
    var d := Dedup(names);
    var gs := seq(|d|, i requires 0 <= i < |d| => (d[i], [d[i]]));
    assert forall t :: t in names ==> (t, [t]) in gs by {
      forall t | t in names ensures (t, [t]) in gs {
        var i :| 0 <= i < |d| && d[i] == t;
        assert gs[i] == (t, [t]);
      }
    }
    gs
  }

  /** What a value of the `spike_types` dict can be. */
  datatype GroupValue = TypeList(prefixes: seq<string>) | NotAList

  /** The `spike_types` argument: `None`, a `str`, a `list` of names, a
      `dict` (in insertion order) or anything else. */
  datatype SpikeTypesArg =
    | Unspecified
    | OneType(name: string)
    | TypeNames(names: seq<string>)
    | Groups(entries: seq<(string, GroupValue)>)
    | OtherArg

  /** The dict case: every value must be a list, the first one that is not
      raising with its key. */
  function GroupLists(entries: seq<(string, GroupValue)>): (r: Result<seq<(string, seq<string>)>, VizError>)
    ensures r.Ok? <==> forall i :: 0 <= i < |entries| ==> entries[i].1.TypeList?
    ensures r.Ok? ==>
      && |r.value| == |entries|
      && forall i :: 0 <= i < |entries| ==> r.value[i] == (entries[i].0, entries[i].1.prefixes)
    ensures r.Err? ==> exists i ::
      && 0 <= i < |entries| && entries[i].1.NotAList?
      && r.error == SpikeTypesValueNotList(entries[i].0)
      && forall j :: 0 <= j < i ==> entries[j].1.TypeList?
  {
    if |entries| == 0 then Ok([])
    else if entries[0].1.NotAList? then Err(SpikeTypesValueNotList(entries[0].0))
    else
      match GroupLists(entries[1..])
      case Err(e) =>
        assert forall i :: 1 <= i < |entries| ==> entries[i] == entries[1..][i - 1];
        Err(e)
      case Ok(rest) =>
        assert forall i :: 1 <= i < |entries| ==> entries[i] == entries[1..][i - 1];
        Ok([(entries[0].0, entries[0].1.prefixes)] + rest)
  }

  /** The labels plotted when `spike_types` is `None`: the input types if
      any of them is a non-empty string (`any(input_types)`), otherwise
      every observed type. */
  function DefaultNames(types: seq<string>): (r: seq<string>)
    ensures (exists t :: t in InputTypes(types) && t != "") ==> r == InputTypes(types)
    ensures (forall t :: t in InputTypes(types) ==> t == "") ==> r == types
  {
    if exists t :: t in InputTypes(types) && t != "" then InputTypes(types) else types
  }

  /** The normalisation of `spike_types` into an ordered list of
      (label, prefixes): a string is its own single group; `None` and a list
      give one group per name, labelled by that name; a dict keeps its
      groups once every value is a list; anything else raises. */
  function NormalizeSpikeTypes(arg: SpikeTypesArg, types: seq<string>): (r: Result<seq<(string, seq<string>)>, VizError>)
    ensures arg.OneType? ==> r == Ok([(arg.name, [arg.name])])
    ensures arg.OtherArg? ==> r == Err(SpikeTypesWrongType)
    ensures arg.TypeNames? ==>
      && r.Ok?
      && (forall g :: g in r.value ==> g.1 == [g.0] && g.0 in arg.names)
      && (forall t :: t in arg.names ==> (t, [t]) in r.value)
    ensures arg.Unspecified? ==>
      && r.Ok?
      && (forall g :: g in r.value ==> g.1 == [g.0] && g.0 in DefaultNames(types))
      && (forall t :: t in DefaultNames(types) ==> (t, [t]) in r.value)
    ensures arg.Groups? ==> r == GroupLists(arg.entries)
  {
    match arg
    case OneType(name) => Ok([(name, [name])])
    case Unspecified => Ok(Singletons(DefaultNames(types)))
    case TypeNames(names) => Ok(Singletons(names))
    case Groups(entries) => GroupLists(entries)
    case OtherArg => Err(SpikeTypesWrongType)
  }

  /** The (label, prefix) pairs of one group, in order. */
  function PrefixPairs(lbl: string, ps: seq<string>): (r: seq<(string, string)>)
    ensures |r| == |ps| && forall i :: 0 <= i < |ps| ==> r[i] == (lbl, ps[i])
  {
    seq(|ps|, i requires 0 <= i < |ps| => (lbl, ps[i]))
  }

  /** All (label, prefix) pairs in the order the loops visit them. */
  function Pairs(groups: seq<(string, seq<string>)>): seq<(string, string)>
  {
    if |groups| == 0 then [] else PrefixPairs(groups[0].0, groups[0].1) + Pairs(groups[1..])
  }

  /** A pair is visited exactly when its prefix is listed under its label. */
  lemma {:induction false} PairsMembers(groups: seq<(string, seq<string>)>, lbl: string, prefix: string)
    ensures (lbl, prefix) in Pairs(groups) <==> exists g :: g in groups && g.0 == lbl && prefix in g.1
  {
    if |groups| > 0 {
      PairsMembers(groups[1..], lbl, prefix);
      var pp := PrefixPairs(groups[0].0, groups[0].1);
      assert (lbl, prefix) in pp <==> groups[0].0 == lbl && prefix in groups[0].1 by {
        if (lbl, prefix) in pp {
          var i :| 0 <= i < |pp| && pp[i] == (lbl, prefix);
        }
        if groups[0].0 == lbl && prefix in groups[0].1 {
          var i :| 0 <= i < |groups[0].1| && groups[0].1[i] == prefix;
          assert pp[i] == (lbl, prefix);
        }
      }
      if exists g :: g in groups && g.0 == lbl && prefix in g.1 {
        var g :| g in groups && g.0 == lbl && prefix in g.1;
        if g != groups[0] {
          assert g in groups[1..];
        }
      }
      assert forall g :: g in groups[1..] ==> g in groups;
    }
  }

  /** The observed types a prefix picks out. */
  function MatchSet(prefix: string, types: seq<string>): set<string>
  {
    set t | t in types && StartsWith(t, prefix)
  }

  /** The innermost loop for one (label, prefix) from position `k`, with the
      labels assigned so far and the count `found` of matches: each matching
      type is assigned the label, unless it already has one, which raises. */
  function ScanFrom(lbl: string, prefix: string, types: seq<string>, k: nat, labels: map<string, string>, found: nat): Result<(map<string, string>, nat), VizError>
    requires k <= |types|
    decreases |types| - k
  {
    if k == |types| then Ok((labels, found))
    else if StartsWith(types[k], prefix) then
      if types[k] in labels then Err(SpikeTypeFoundTwice(types[k]))
      else ScanFrom(lbl, prefix, types, k + 1, labels[types[k] := lbl], found + 1)
    else ScanFrom(lbl, prefix, types, k + 1, labels, found)
  }

  /** What follows a scan: its error, the error for a prefix that matched
      nothing, or the remaining pairs. */
  function Finish(scan: Result<(map<string, string>, nat), VizError>, prefix: string, rest: seq<(string, string)>, types: seq<string>): Result<map<string, string>, VizError>
  {
    match scan
    case Err(e) => Err(e)
    case Ok((m, found)) => if found == 0 then Err(NoSpikeTypeFound(prefix)) else ResolvePairs(rest, types, m)
  }

  /** The label resolution of `plot_spikes_hist` over the pairs in order,
      starting from the labels `labels`. */
  function ResolvePairs(pairs: seq<(string, string)>, types: seq<string>, labels: map<string, string>): Result<map<string, string>, VizError>
    decreases |pairs|
  {
    if |pairs| == 0 then Ok(labels)
    else
      match ScanFrom(pairs[0].0, pairs[0].1, types, 0, labels, 0)
      case Err(e) => Err(e)
      case Ok((m, found)) => if found == 0 then Err(NoSpikeTypeFound(pairs[0].1)) else ResolvePairs(pairs[1..], types, m)
  }

  lemma ResolveUnfold(pairs: seq<(string, string)>, types: seq<string>, labels: map<string, string>)
    requires |pairs| > 0
    ensures ResolvePairs(pairs, types, labels) ==
      Finish(ScanFrom(pairs[0].0, pairs[0].1, types, 0, labels, 0), pairs[0].1, pairs[1..], types)
  {
  }

  lemma PairsStep(groups: seq<(string, seq<string>)>, g: nat)
    requires g < |groups|
    ensures Pairs(groups[g..]) == PrefixPairs(groups[g].0, groups[g].1) + Pairs(groups[g + 1..])
  {
    assert groups[g..][1..] == groups[g + 1..];
  }

  lemma PrefixPairsStep(lbl: string, ps: seq<string>, p: nat, after: seq<(string, string)>)
    requires p < |ps|
    ensures var whole := PrefixPairs(lbl, ps[p..]) + after;
      |whole| > 0 && whole[0] == (lbl, ps[p]) && whole[1..] == PrefixPairs(lbl, ps[p + 1..]) + after
  {
    var whole := PrefixPairs(lbl, ps[p..]) + after;
    assert whole[0] == (lbl, ps[p..][0]);
    var tail := PrefixPairs(lbl, ps[p + 1..]) + after;
    assert |whole[1..]| == |tail|;
    forall i | 0 <= i < |tail| ensures whole[1..][i] == tail[i] {
      if i < |ps| - p - 1 {
        assert ps[p..][i + 1] == ps[p + 1..][i];
      }
    }
  }

  /** The nested loops of `plot_spikes_hist` that fill `spike_labels`:
      for each label and each of its prefixes, every observed type starting
      with the prefix is assigned the label, a type assigned twice raising
      and a prefix that matched nothing raising. */
  method ResolveSpikeLabels(groups: seq<(string, seq<string>)>, types: seq<string>)
    returns (r: Result<map<string, string>, VizError>)
    ensures r == ResolvePairs(Pairs(groups), types, map[])
  {
    ghost var all := Pairs(groups);
    var labels: map<string, string> := map[];
    for g := 0 to |groups|
      invariant ResolvePairs(all, types, map[]) == ResolvePairs(Pairs(groups[g..]), types, labels)
    {
      var lbl, ps := groups[g].0, groups[g].1;
      PairsStep(groups, g);
      ghost var after := Pairs(groups[g + 1..]);
      for p := 0 to |ps|
        invariant ResolvePairs(all, types, map[]) == ResolvePairs(PrefixPairs(lbl, ps[p..]) + after, types, labels)
      {
        var prefix := ps[p];
        ghost var rest := PrefixPairs(lbl, ps[p + 1..]) + after;
        PrefixPairsStep(lbl, ps, p, after);
        ResolveUnfold(PrefixPairs(lbl, ps[p..]) + after, types, labels);
        var found := 0;
        for k := 0 to |types|
          invariant ResolvePairs(all, types, map[]) == Finish(ScanFrom(lbl, prefix, types, k, labels, found), prefix, rest, types)
        {
          if StartsWith(types[k], prefix) {
            if types[k] in labels {
              return Err(SpikeTypeFoundTwice(types[k]));
            }
            labels := labels[types[k] := lbl];
            found := found + 1;
          }
        }
        if found == 0 {
          return Err(NoSpikeTypeFound(prefix));
        }
      }
      assert PrefixPairs(lbl, ps[|ps|..]) + after == after;
    }
    assert Pairs(groups[|groups|..]) == [];
    return Ok(labels);
  }

  /** Splitting off the type at `k`: distinct types match at most once. */
  lemma MatchSetStep(prefix: string, types: seq<string>, k: nat)
    requires Distinct(types) && k < |types|
    ensures MatchSet(prefix, types[k..]) ==
      (if StartsWith(types[k], prefix) then {types[k]} else {}) + MatchSet(prefix, types[k + 1..])
    ensures types[k] !in types[k + 1..]
  {
    assert types[k..] == [types[k]] + types[k + 1..];
  }

  /** What a scan `r` that matched the types `s`, starting from the labels
      `labels` and the count `found`, is known to deliver: success exactly
      when none of `s` is labelled yet; then exactly `s` gains the label,
      every earlier label is kept, and the count is zero exactly when
      nothing was found before or now. A failure names a matched type that
      already had a label. */
  predicate ScanDelivers(r: Result<(map<string, string>, nat), VizError>, s: set<string>, labels: map<string, string>, lbl: string, found: nat)
  {
    && (r.Ok? <==> s !! labels.Keys)
    && (r.Ok? ==>
          && r.value.0.Keys == labels.Keys + s
          && (forall t :: t in labels ==> r.value.0[t] == labels[t])
          && (forall t :: t in s ==> r.value.0[t] == lbl)
          && (r.value.1 == 0 <==> found == 0 && s == {}))
    && (r.Err? ==> r.error.SpikeTypeFoundTwice? && r.error.spikeType in s && r.error.spikeType in labels)
  }

  /** The scan from `k` delivers what `ScanDelivers` says for the types it
      matches from `k` on. */
  lemma {:induction false} ScanSpec(lbl: string, prefix: string, types: seq<string>, k: nat, labels: map<string, string>, found: nat)
    requires Distinct(types) && k <= |types|
    ensures ScanDelivers(ScanFrom(lbl, prefix, types, k, labels, found), MatchSet(prefix, types[k..]), labels, lbl, found)
    decreases |types| - k
  {
    if k == |types| {
      assert types[k..] == [];
    } else {
      MatchSetStep(prefix, types, k);
      var t0 := types[k];
      if StartsWith(t0, prefix) && t0 !in labels {
        ScanSpec(lbl, prefix, types, k + 1, labels[t0 := lbl], found + 1);
        MatchDelivers(ScanFrom(lbl, prefix, types, k, labels, found), MatchSet(prefix, types[k + 1..]), labels, lbl, found, t0);
      } else if !StartsWith(t0, prefix) {
        ScanSpec(lbl, prefix, types, k + 1, labels, found);
      }
    }
  }

  /** One matching, unlabelled type `t0` ahead of a scan that delivers for
      the rest `s`: together they deliver for `{t0} + s`. */
  lemma MatchDelivers(r: Result<(map<string, string>, nat), VizError>, s: set<string>, labels: map<string, string>, lbl: string, found: nat, t0: string)
    requires t0 !in labels && t0 !in s
    requires ScanDelivers(r, s, labels[t0 := lbl], lbl, found + 1)
    ensures ScanDelivers(r, {t0} + s, labels, lbl, found)
  {
    if r.Ok? {
      assert r.value.0.Keys == labels.Keys + ({t0} + s);
    }
  }

  /** Every observed type some pair's prefix picks out. */
  function Claimed(pairs: seq<(string, string)>, types: seq<string>): set<string>
  {
    if |pairs| == 0 then {} else MatchSet(pairs[0].1, types) + Claimed(pairs[1..], types)
  }

  lemma {:induction false} ClaimedMembers(pairs: seq<(string, string)>, types: seq<string>)
    ensures forall t :: t in Claimed(pairs, types) <==>
      exists i :: 0 <= i < |pairs| && t in MatchSet(pairs[i].1, types)
  {
    if |pairs| > 0 {
      ClaimedMembers(pairs[1..], types);
      forall t | t in Claimed(pairs, types)
        ensures exists i :: 0 <= i < |pairs| && t in MatchSet(pairs[i].1, types)
      {
        if t !in MatchSet(pairs[0].1, types) {
          assert t in Claimed(pairs[1..], types);
          var i :| 0 <= i < |pairs[1..]| && t in MatchSet(pairs[1..][i].1, types);
          assert pairs[1..][i] == pairs[i + 1];
        }
      }
      forall t, i | 0 <= i < |pairs| && t in MatchSet(pairs[i].1, types)
        ensures t in Claimed(pairs, types)
      {
        if i > 0 {
          assert pairs[1..][i - 1] == pairs[i];
        }
      }
    }
  }

  /** Every requested prefix matches at least one observed type. */
  predicate AllFound(pairs: seq<(string, string)>, types: seq<string>)
  {
    forall i :: 0 <= i < |pairs| ==> MatchSet(pairs[i].1, types) != {}
  }

  /** No observed type is picked out by two different pairs. */
  predicate Exclusive(pairs: seq<(string, string)>, types: seq<string>)
  {
    forall i, j :: 0 <= i < j < |pairs| ==> MatchSet(pairs[i].1, types) !! MatchSet(pairs[j].1, types)
  }

  /** The three conditions of the resolution, split at its first pair. */
  lemma SplitConditions(pairs: seq<(string, string)>, types: seq<string>)
    requires |pairs| > 0
    ensures var s0, rest := MatchSet(pairs[0].1, types), pairs[1..];
      && (AllFound(pairs, types) <==> s0 != {} && AllFound(rest, types))
      && (Exclusive(pairs, types) <==> Exclusive(rest, types) && s0 !! Claimed(rest, types))
      && Claimed(pairs, types) == s0 + Claimed(rest, types)
  {
    SplitFound(pairs, types);
    SplitExclusive(pairs, types);
  }

  lemma SplitFound(pairs: seq<(string, string)>, types: seq<string>)
    requires |pairs| > 0
    ensures AllFound(pairs, types) <==> MatchSet(pairs[0].1, types) != {} && AllFound(pairs[1..], types)
  {
    assert forall i :: 0 <= i < |pairs[1..]| ==> pairs[1..][i] == pairs[i + 1];
  }

  lemma SplitExclusive(pairs: seq<(string, string)>, types: seq<string>)
    requires |pairs| > 0
    ensures Exclusive(pairs, types) <==>
      Exclusive(pairs[1..], types) && MatchSet(pairs[0].1, types) !! Claimed(pairs[1..], types)
  {
    var s0, rest := MatchSet(pairs[0].1, types), pairs[1..];
    assert forall i :: 0 <= i < |rest| ==> rest[i] == pairs[i + 1];
    ClaimedMembers(rest, types);
    if Exclusive(rest, types) && s0 !! Claimed(rest, types) {
      forall i, j | 0 <= i < j < |pairs|
        ensures MatchSet(pairs[i].1, types) !! MatchSet(pairs[j].1, types)
      {
        if i == 0 {
          assert MatchSet(rest[j - 1].1, types) <= Claimed(rest, types);
        } else {
          assert rest[i - 1] == pairs[i] && rest[j - 1] == pairs[j];
        }
      }
    }
    if Exclusive(pairs, types) {
      forall i, j | 0 <= i < j < |rest|
        ensures MatchSet(rest[i].1, types) !! MatchSet(rest[j].1, types)
      {
        assert MatchSet(pairs[i + 1].1, types) !! MatchSet(pairs[j + 1].1, types);
      }
    }
  }

  /** The resolution over distinct observed types, from the labels
      `labels`: it succeeds exactly when every prefix matches some type, no
      type is matched by two pairs and no matched type is labelled already;
      it then labels exactly the matched types, each with the label of the
      pair that matched it, and keeps the earlier labels. */
  lemma {:induction false} ResolveSpec(pairs: seq<(string, string)>, types: seq<string>, labels: map<string, string>)
    requires Distinct(types)
    ensures ResolveMeaning(pairs, types, labels, ResolvePairs(pairs, types, labels))
    decreases |pairs|, 1
  {
    if |pairs| > 0 {
      var lbl, prefix := pairs[0].0, pairs[0].1;
      assert types[0..] == types;
      ScanSpec(lbl, prefix, types, 0, labels, 0);
      SplitConditions(pairs, types);
      var scan := ScanFrom(lbl, prefix, types, 0, labels, 0);
      if scan.Ok? && scan.value.1 > 0 {
        ResolveStep(pairs, types, labels);
      }
    }
  }

  /** What `ResolveSpec` states about a result `r`. */
  predicate ResolveMeaning(pairs: seq<(string, string)>, types: seq<string>, labels: map<string, string>, r: Result<map<string, string>, VizError>)
  {
    && (r.Ok? <==> AllFound(pairs, types) && Exclusive(pairs, types) && Claimed(pairs, types) !! labels.Keys)
    && (r.Ok? ==> LabelsAssigned(pairs, types, labels, r.value))
  }

  /** `v` holds the labels `labels` and labels every type a pair matched
      with that pair's label. */
  predicate LabelsAssigned(pairs: seq<(string, string)>, types: seq<string>, labels: map<string, string>, v: map<string, string>)
  {
    && v.Keys == labels.Keys + Claimed(pairs, types)
    && (forall t :: t in labels ==> t in v && v[t] == labels[t])
    && PairsLabelled(pairs, types, v)
  }

  /** Every type a pair matches carries that pair's label in `v`. */
  predicate PairsLabelled(pairs: seq<(string, string)>, types: seq<string>, v: map<string, string>)
  {
    |pairs| > 0 ==>
      && (forall t :: t in MatchSet(pairs[0].1, types) ==> t in v && v[t] == pairs[0].0)
      && PairsLabelled(pairs[1..], types, v)
  }

  /** `PairsLabelled`, pair by pair. */
  lemma {:induction false} PairsLabelledAt(pairs: seq<(string, string)>, types: seq<string>, v: map<string, string>)
    requires PairsLabelled(pairs, types, v)
    ensures forall i, t :: 0 <= i < |pairs| && t in MatchSet(pairs[i].1, types) ==> t in v && v[t] == pairs[i].0
  {
    if |pairs| > 0 {
      PairsLabelledAt(pairs[1..], types, v);
      forall i, t | 0 <= i < |pairs| && t in MatchSet(pairs[i].1, types)
        ensures t in v && v[t] == pairs[i].0
      {
        if i > 0 {
          assert pairs[1..][i - 1] == pairs[i];
        }
      }
    }
  }

  /** The step of `ResolveSpec` where the first prefix matched fresh types. */
  lemma ResolveStep(pairs: seq<(string, string)>, types: seq<string>, labels: map<string, string>)
    requires Distinct(types) && |pairs| > 0
    requires var scan := ScanFrom(pairs[0].0, pairs[0].1, types, 0, labels, 0);
      scan.Ok? && scan.value.1 > 0
    ensures ResolveMeaning(pairs, types, labels, ResolvePairs(pairs, types, labels))
    decreases |pairs|, 0
  {
    var lbl, prefix, rest := pairs[0].0, pairs[0].1, pairs[1..];
    assert types[0..] == types;
    var s0 := MatchSet(prefix, types);
    ScanSpec(lbl, prefix, types, 0, labels, 0);
    SplitConditions(pairs, types);
    var m := ScanFrom(lbl, prefix, types, 0, labels, 0).value.0;
    ResolveSpec(rest, types, m);
    var r := ResolvePairs(pairs, types, labels);
    assert r == ResolvePairs(rest, types, m);
    ConditionsStep(AllFound(pairs, types), AllFound(rest, types), Exclusive(pairs, types), Exclusive(rest, types),
      r.Ok?, s0, Claimed(rest, types), labels.Keys);
    if r.Ok? {
      ValuesStep(pairs, types, labels, m, r.value);
    }
    assert ResolveMeaning(pairs, types, labels, r);
  }

  lemma ConditionsStep(af: bool, afRest: bool, ex: bool, exRest: bool, ok: bool, s0: set<string>, cRest: set<string>, l: set<string>)
    requires af <==> s0 != {} && afRest
    requires ex <==> exRest && s0 !! cRest
    requires ok <==> afRest && exRest && cRest !! (l + s0)
    requires s0 != {} && s0 !! l
    ensures ok <==> af && ex && (s0 + cRest) !! l
  {
  }

  lemma ValuesStep(pairs: seq<(string, string)>, types: seq<string>, labels: map<string, string>, m: map<string, string>, v: map<string, string>)
    requires |pairs| > 0
    requires m.Keys == labels.Keys + MatchSet(pairs[0].1, types)
    requires forall t :: t in labels ==> m[t] == labels[t]
    requires forall t :: t in MatchSet(pairs[0].1, types) ==> m[t] == pairs[0].0
    requires LabelsAssigned(pairs[1..], types, m, v)
    requires Claimed(pairs, types) == MatchSet(pairs[0].1, types) + Claimed(pairs[1..], types)
    ensures LabelsAssigned(pairs, types, labels, v)
  {
    var s0, cRest := MatchSet(pairs[0].1, types), Claimed(pairs[1..], types);
    assert v.Keys == m.Keys + cRest;
    KeysStep(labels.Keys, s0, cRest, m.Keys, v.Keys, Claimed(pairs, types));
    LabelsKept(labels, m, v);
    MatchedLabelled(s0, labels, m, pairs[0].0);
    PairValuesStep(pairs, types, m, v);
  }

  /** The types a scan labelled are keys of its result. */
  lemma MatchedLabelled(s0: set<string>, labels: map<string, string>, m: map<string, string>, lbl: string)
    requires m.Keys == labels.Keys + s0 && forall t :: t in s0 ==> m[t] == lbl
    ensures forall t :: t in s0 ==> t in m && m[t] == lbl
  {
  }

  /** Labels kept from `labels` into `m` and from `m` into `v` are kept from
      `labels` into `v`. */
  lemma LabelsKept(labels: map<string, string>, m: map<string, string>, v: map<string, string>)
    requires labels.Keys <= m.Keys && forall t :: t in labels ==> m[t] == labels[t]
    requires forall t :: t in m ==> t in v && v[t] == m[t]
    ensures forall t :: t in labels ==> t in v && v[t] == labels[t]
  {
  }

  /** The key sets of `ValuesStep`. */
  lemma KeysStep(l: set<string>, s0: set<string>, cRest: set<string>, mk: set<string>, vk: set<string>, c: set<string>)
    requires mk == l + s0 && vk == mk + cRest && c == s0 + cRest
    ensures vk == l + c
  {
  }

  lemma PairValuesStep(pairs: seq<(string, string)>, types: seq<string>, m: map<string, string>, v: map<string, string>)
    requires |pairs| > 0
    requires forall t :: t in MatchSet(pairs[0].1, types) ==> t in m && m[t] == pairs[0].0
    requires forall t :: t in m ==> t in v && v[t] == m[t]
    requires PairsLabelled(pairs[1..], types, v)
    ensures PairsLabelled(pairs, types, v)
  {
  }

  /** `spike_labels` for a `spike_types` argument: normalisation, then the
      resolution over the observed types. */
  function SpikeLabels(arg: SpikeTypesArg, types: seq<string>): Result<map<string, string>, VizError>
  {
    match NormalizeSpikeTypes(arg, types)
    case Err(e) => Err(e)
    case Ok(groups) => ResolvePairs(Pairs(groups), types, map[])
  }

  /** Over distinct observed types, the resolution succeeds exactly when
      every requested prefix matches some type and no type is matched by two
      requested prefixes; on success every labelled type was observed and
      starts with a prefix listed under its label, every prefix matches a
      type, and every type a prefix matches carries that prefix's label. */
  lemma SpikeLabelsMeaning(groups: seq<(string, seq<string>)>, types: seq<string>)
    requires Distinct(types)
    ensures var r := ResolvePairs(Pairs(groups), types, map[]);
      && (r.Ok? <==> AllFound(Pairs(groups), types) && Exclusive(Pairs(groups), types))
      && (r.Ok? ==> forall t :: t in r.value ==>
            t in types && exists g, p :: g in groups && p in g.1 && g.0 == r.value[t] && StartsWith(t, p))
      && (r.Ok? ==> forall g, p :: g in groups && p in g.1 ==> exists t :: t in types && StartsWith(t, p))
      && (r.Ok? ==> forall g, p, t :: g in groups && p in g.1 && t in types && StartsWith(t, p) ==>
            t in r.value && r.value[t] == g.0)
  {
    ResolveSpec(Pairs(groups), types, map[]);
    if ResolvePairs(Pairs(groups), types, map[]).Ok? {
      LabelsSound(groups, types);
      PrefixesFound(groups, types);
      LabelsComplete(groups, types);
    }
  }

  lemma LabelsSound(groups: seq<(string, seq<string>)>, types: seq<string>)
    requires Distinct(types) && ResolvePairs(Pairs(groups), types, map[]).Ok?
    ensures var m := ResolvePairs(Pairs(groups), types, map[]).value;
      forall t :: t in m ==> t in types && exists g, p :: g in groups && p in g.1 && g.0 == m[t] && StartsWith(t, p)
  {
    var pairs := Pairs(groups);
    var m := ResolvePairs(pairs, types, map[]).value;
    ResolveSpec(pairs, types, map[]);
    ResolveAssigns(pairs, types);
    ClaimedMembers(pairs, types);
    forall t | t in m
      ensures t in types && exists g, p :: g in groups && p in g.1 && g.0 == m[t] && StartsWith(t, p)
    {
      var i :| 0 <= i < |pairs| && t in MatchSet(pairs[i].1, types);
      PairsMembers(groups, pairs[i].0, pairs[i].1);
      assert pairs[i] in pairs;
    }
  }

  lemma PrefixesFound(groups: seq<(string, seq<string>)>, types: seq<string>)
    requires Distinct(types) && ResolvePairs(Pairs(groups), types, map[]).Ok?
    ensures forall g, p :: g in groups && p in g.1 ==> exists t :: t in types && StartsWith(t, p)
  {
    var pairs := Pairs(groups);
    ResolveSpec(pairs, types, map[]);
    forall g, p | g in groups && p in g.1 ensures exists t :: t in types && StartsWith(t, p) {
      PairsMembers(groups, g.0, p);
      var i :| 0 <= i < |pairs| && pairs[i] == (g.0, p);
      var t :| t in MatchSet(pairs[i].1, types);
    }
  }

  /** On success, every type a pair matches carries that pair's label. */
  lemma ResolveAssigns(pairs: seq<(string, string)>, types: seq<string>)
    requires Distinct(types) && ResolvePairs(pairs, types, map[]).Ok?
    ensures var m := ResolvePairs(pairs, types, map[]).value;
      forall i, t :: 0 <= i < |pairs| && t in MatchSet(pairs[i].1, types) ==> t in m && m[t] == pairs[i].0
  {
    ResolveSpec(pairs, types, map[]);
    PairsLabelledAt(pairs, types, ResolvePairs(pairs, types, map[]).value);
  }

  lemma LabelsComplete(groups: seq<(string, seq<string>)>, types: seq<string>)
    requires Distinct(types) && ResolvePairs(Pairs(groups), types, map[]).Ok?
    ensures var m := ResolvePairs(Pairs(groups), types, map[]).value;
      forall g, p, t :: g in groups && p in g.1 && t in types && StartsWith(t, p) ==> t in m && m[t] == g.0
  {
    var pairs := Pairs(groups);
    var m := ResolvePairs(pairs, types, map[]).value;
    ResolveAssigns(pairs, types);
    forall g, p, t | g in groups && p in g.1 && t in types && StartsWith(t, p)
      ensures t in m && m[t] == g.0
    {
      PairsMembers(groups, g.0, p);
      var i :| 0 <= i < |pairs| && pairs[i] == (g.0, p);
      assert t in MatchSet(pairs[i].1, types);
    }
  }

  /** With `spike_types=None`, an observed input type that is a prefix of
      another (here `evprox1` and `evprox10`) is matched twice, so the
      default raises. */
  lemma DefaultPrefixCollision()
    ensures SpikeLabels(Unspecified, ["evprox1", "evprox10"]) == Err(SpikeTypeFoundTwice("evprox10"))
  {
    assert StartsWith("evprox10", "evprox1");
    PrefixCollision("evprox1", "evprox10");
  }

  /** Two observed input types of which the first is a proper prefix of the
      second: the first prefix labels both types, and the second finds its
      own type already labelled. */
  lemma PrefixCollision(a: string, b: string)
    requires a != b && a != "" && a !in CellTypes && b !in CellTypes && StartsWith(b, a)
    ensures SpikeLabels(Unspecified, [a, b]) == Err(SpikeTypeFoundTwice(b))
  {
    var types := [a, b];
    DefaultGroupsOfTwo(a, b);
    PairsOfTwo(a, b);
    var pairs := [(a, a), (b, b)];
    var m := map[a := a, b := a];
    CollisionScans(a, b);
    assert pairs[1..] == [(b, b)];
    assert ResolvePairs(pairs[1..], types, m) == Err(SpikeTypeFoundTwice(b));
  }

  lemma PairsOfTwo(a: string, b: string)
    ensures Pairs([(a, [a]), (b, [b])]) == [(a, a), (b, b)]
  {
    var groups := [(a, [a]), (b, [b])];
    assert groups[1..] == [(b, [b])] && groups[1..][1..] == [];
    assert Pairs(groups[1..]) == [(b, b)];
  }

  /** The two scans of `PrefixCollision`: the prefix `a` labels both types,
      then the prefix `b` meets `b` already labelled. */
  lemma CollisionScans(a: string, b: string)
    requires a != b && StartsWith(b, a)
    ensures ScanFrom(a, a, [a, b], 0, map[], 0) == Ok((map[a := a, b := a], 2))
    ensures ScanFrom(b, b, [a, b], 0, map[a := a, b := a], 0) == Err(SpikeTypeFoundTwice(b))
  {
    var types, m := [a, b], map[a := a, b := a];
    assert b[..|b|] == b;
    assert |a| < |b|;
    assert StartsWith(a, a) by {
      assert a[..|a|] == a;
    }
    assert ScanFrom(a, a, types, 2, m, 2) == Ok((m, 2));
    assert map[a := a][b := a] == m;
    assert ScanFrom(a, a, types, 1, map[a := a], 1) == Ok((m, 2));
    assert ScanFrom(b, b, types, 1, m, 0) == Err(SpikeTypeFoundTwice(b));
  }

  /** Two different observed input types, neither a cell type, become one
      singleton group each when `spike_types` is `None`. */
  lemma DefaultGroupsOfTwo(a: string, b: string)
    requires a != b && a != "" && a !in CellTypes && b !in CellTypes
    ensures NormalizeSpikeTypes(Unspecified, [a, b]) == Ok([(a, [a]), (b, [b])])
  {
    var types := [a, b];
    InputTypesOfTwo(a, b);
    assert DefaultNames(types) == types;
    DedupOfTwo(a, b);
    assert Singletons(types) == [(a, [a]), (b, [b])];
  }

  lemma InputTypesOfTwo(a: string, b: string)
    requires a !in CellTypes && b !in CellTypes
    ensures InputTypes([a, b]) == [a, b]
  {
    assert [a, b][..1] == [a] && [a][..0] == [];
    assert InputTypes([a]) == [a];
  }

  lemma DedupOfTwo(a: string, b: string)
    requires a != b
    ensures Dedup([a, b]) == [a, b]
  {
    assert [a, b][..1] == [a] && [a][..0] == [];
    assert Dedup([a]) == [a];
  }
}
