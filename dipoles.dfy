/** The `Dipole` object of hnn_core/dipole.py: a time axis, three layer
    waveforms keyed `agg`, `L2` and `L5`, a units tag, the number of trials
    averaged (`nave`) and the sampling rate, with the in-place
    post-processing steps and the cross-trial average. */
module Dipoles {
  import opened Common
  import opened Arrays
  import opened Filters

  /** The keys of `Dipole.data`. */
  datatype Layer = Agg | L2 | L5

  /** The keys in the order the dictionary is built, which is the order
      every `for key in self.data.keys()` loop visits them. */
  const LayerKeys: seq<Layer> := [Agg, L2, L5]

  lemma LayerKeysCover(k: Layer)
    ensures k in LayerKeys && (k == Agg || k == L2 || k == L5)
  {
  }

  /** The exceptions the core raises. */
  datatype DipoleError =
    | NoSmoothingArgument                  // neither `window_len` nor `h_freq`
    | BothSmoothingArguments               // both of them
    | WindowTooLong(winsz: real, nTimes: nat)
    | NegativeHFreq
    | HFreqAboveHalfRate                   // `smooth`'s own `h_freq > 0.5 * sfreq`
    | Savgol(cause: SavgolError)           // raised inside `_savgol_filter`
    | TooFewDipoles                        // fewer than two to average
    | AlreadyAveraged(index: nat, nave: int)
    | RaggedTrials                         // layers of unequal length cannot be stacked

  /** All three layers present, each with `n` samples. */
  predicate WellShaped(d: map<Layer, seq<real>>, n: nat)
  {
    && Agg in d && L2 in d && L5 in d
    && |d[Agg]| == n && |d[L2]| == n && |d[L5]| == n
  }

  /** Two layer maps that hold every key and agree on each are equal. */
  lemma LayersEqual(a: map<Layer, seq<real>>, b: map<Layer, seq<real>>)
    requires Agg in a && L2 in a && L5 in a && Agg in b && L2 in b && L5 in b
    requires a[Agg] == b[Agg] && a[L2] == b[L2] && a[L5] == b[L5]
    ensures a == b
  {
    forall k: Layer ensures k in a && k in b && a[k] == b[k] {
      LayerKeysCover(k);
    }
  }

  /** The aggregate waveform is, sample by sample, the sum of the two layers. */
  predicate AggIsSum(d: map<Layer, seq<real>>)
  {
    && Agg in d && L2 in d && L5 in d
    && |d[Agg]| == |d[L2]| == |d[L5]|
    && forall i :: 0 <= i < |d[Agg]| ==> d[Agg][i] == d[L2][i] + d[L5][i]
  }

  // ---------------------------------------------------------------------
  // Baseline renormalisation constants (subtracted, per pyramidal cell)

  const L2Offset: real := 0.0443
  const L5EarlyOffset: real := -49.0502
  const EarlyEnd: real := 37.0
  const MiddleSlope: real := 0.0034770508
  const MiddleIntercept: real := -51.231085
  const LateStart: real := 750.0
  const LateSlope: real := 0.000101
  const LateIntercept: real := -48.412078

  /** The three time regimes of the L5 correction. */
  datatype Regime = Early | Middle | Late

  /** The boolean mask `baseline_renormalize` builds for each regime. */
  predicate InRegime(r: Regime, t: real)
  {
    match r
    case Early => t <= EarlyEnd
    case Middle => t > EarlyEnd && t < LateStart
    case Late => t >= LateStart
  }

  /** The regime a time falls into: it is in that mask and in no other, so
      the three masks partition the time axis. */
  function RegimeOf(t: real): (r: Regime)
    ensures InRegime(r, t)
    ensures forall q: Regime :: InRegime(q, t) ==> q == r
  {
    if t <= EarlyEnd then Early else if t < LateStart then Middle else Late
  }

  /** The amount the mask of regime `r` subtracts from an L5 sample at time
      `t`, for `npyr` pyramidal cells per layer. */
  function RegimeOffset(r: Regime, t: real, npyr: real): real
  {
    match r
    case Early => npyr * L5EarlyOffset
    case Middle => npyr * (MiddleSlope * t + MiddleIntercept)
    case Late => npyr * (LateSlope * t + LateIntercept)
  }

  /** One masked update `l5[mask] -= offset[mask]`: samples whose time lies in
      regime `r` lose that regime's offset, the others are left alone. */
  function SubtractInRegime(l5: seq<real>, times: seq<real>, r: Regime, npyr: real): (s: seq<real>)
    requires |l5| == |times|
    ensures |s| == |l5|
  {
    seq(|l5|, i requires 0 <= i < |l5| =>
      if InRegime(r, times[i]) then l5[i] - RegimeOffset(r, times[i], npyr) else l5[i])
  }

  /** The renormalised layers, stated per sample: L2 loses `npyr * 0.0443`
      everywhere, each L5 sample loses exactly the offset of the one regime
      its time lies in, and `agg` is rebuilt as `L2 + L5`. */
  function Renormalized(d: map<Layer, seq<real>>, times: seq<real>, npyr: real): (r: map<Layer, seq<real>>)
    requires WellShaped(d, |times|)
    ensures WellShaped(r, |times|) && AggIsSum(r)
    ensures forall i :: 0 <= i < |times| ==> r[L2][i] == d[L2][i] - npyr * L2Offset
    ensures forall i :: 0 <= i < |times| ==>
      r[L5][i] == d[L5][i] - RegimeOffset(RegimeOf(times[i]), times[i], npyr)
  {
    var l2 := Shifted(d[L2], npyr * L2Offset);
    var l5 := seq(|times|, i requires 0 <= i < |times| =>
      d[L5][i] - RegimeOffset(RegimeOf(times[i]), times[i], npyr));
    map[Agg := Add(l2, l5), L2 := l2, L5 := l5]
  }

  /** The three masked passes of the source, applied one after the other,
      give the per-sample piecewise correction of `Renormalized`: no sample
      is corrected twice and none is missed. */
  lemma MaskedPassesArePiecewise(l5: seq<real>, times: seq<real>, npyr: real)
    requires |l5| == |times|
    ensures SubtractInRegime(SubtractInRegime(SubtractInRegime(l5, times, Early, npyr), times, Middle, npyr), times, Late, npyr)
         == seq(|times|, i requires 0 <= i < |times| => l5[i] - RegimeOffset(RegimeOf(times[i]), times[i], npyr))
  {
    var a := SubtractInRegime(l5, times, Early, npyr);
    var b := SubtractInRegime(a, times, Middle, npyr);
    var c := SubtractInRegime(b, times, Late, npyr);
    var want := seq(|times|, i requires 0 <= i < |times| => l5[i] - RegimeOffset(RegimeOf(times[i]), times[i], npyr));
    forall i | 0 <= i < |times| ensures c[i] == want[i] {
      var r := RegimeOf(times[i]);
      assert c[i] == l5[i] - RegimeOffset(r, times[i], npyr) by {
        match r
        case Early => assert a[i] == l5[i] - RegimeOffset(Early, times[i], npyr);
        case Middle => assert b[i] == l5[i] - RegimeOffset(Middle, times[i], npyr);
        case Late => assert c[i] == b[i] - RegimeOffset(Late, times[i], npyr);
      }
    }
  }

  /** Renormalising twice subtracts every offset twice: the operation is not
      idempotent, so a second call on data still tagged 'fAm' shifts again. */
  lemma {:induction false} RenormalizeTwice(d: map<Layer, seq<real>>, times: seq<real>, npyr: real, i: nat)
    requires WellShaped(d, |times|) && i < |times|
    ensures Renormalized(Renormalized(d, times, npyr), times, npyr)[L2][i] == d[L2][i] - 2.0 * npyr * L2Offset
    ensures Renormalized(Renormalized(d, times, npyr), times, npyr)[L5][i]
         == d[L5][i] - 2.0 * RegimeOffset(RegimeOf(times[i]), times[i], npyr)
  {
    var once := Renormalized(d, times, npyr);
    assert once[L2][i] == d[L2][i] - npyr * L2Offset;
    assert once[L5][i] == d[L5][i] - RegimeOffset(RegimeOf(times[i]), times[i], npyr);
  }

  // ---------------------------------------------------------------------
  // Scaling and smoothing all layers

  /** Every layer multiplied by `f`. */
  function ScaleAll(d: map<Layer, seq<real>>, f: real): (r: map<Layer, seq<real>>)
    ensures r.Keys == d.Keys
    ensures forall n: nat :: WellShaped(d, n) ==> WellShaped(r, n)
  {
    map k | k in d :: Scaled(d[k], f)
  }

  /** Scaling keeps `agg == L2 + L5`. */
  lemma ScaleAllAggIsSum(d: map<Layer, seq<real>>, f: real)
    requires AggIsSum(d)
    ensures AggIsSum(ScaleAll(d, f))
  {
    var r := ScaleAll(d, f);
    forall i | 0 <= i < |r[Agg]| ensures r[Agg][i] == r[L2][i] + r[L5][i] {
      calc {
        r[Agg][i];
        f * d[Agg][i];
        f * (d[L2][i] + d[L5][i]);
        f * d[L2][i] + f * d[L5][i];
      }
    }
  }

  /** Scaling twice is scaling once by the product: `convert_fAm_to_nAm`
      followed by `scale(fctr)` multiplies every sample by `1e-6 * fctr`. */
  lemma ScaleAllCompose(d: map<Layer, seq<real>>, f: real, g: real)
    ensures ScaleAll(ScaleAll(d, f), g) == ScaleAll(d, f * g)
  {
    var lhs, rhs := ScaleAll(ScaleAll(d, f), g), ScaleAll(d, f * g);
    forall k | k in d ensures lhs[k] == rhs[k] {
      assert |lhs[k]| == |rhs[k]|;
      forall i | 0 <= i < |rhs[k]| ensures lhs[k][i] == rhs[k][i] {
        assert lhs[k][i] == g * (f * d[k][i]);
      }
    }
  }

  /** Every layer convolved with the same normalised Hamming window. */
  function HammingSmoothed(d: map<Layer, seq<real>>, n: nat, winsz: real, lib: SignalLib): (r: map<Layer, seq<real>>)
    requires ValidLib(lib) && WellShaped(d, n) && 1.0 < winsz <= n as real
    ensures WellShaped(r, n)
  {
    map[Agg := Hammfilt(d[Agg], winsz, lib), L2 := Hammfilt(d[L2], winsz, lib), L5 := Hammfilt(d[L5], winsz, lib)]
  }

  /** Hamming smoothing keeps `agg == L2 + L5`, because convolution is linear. */
  lemma HammingSmoothedAggIsSum(d: map<Layer, seq<real>>, n: nat, winsz: real, lib: SignalLib)
    requires ValidLib(lib) && WellShaped(d, n) && 1.0 < winsz <= n as real
    requires AggIsSum(d)
    ensures AggIsSum(HammingSmoothed(d, n, winsz, lib))
  {
    HammfiltAdd(d[L2], d[L5], d[Agg], winsz, lib);
  }

  /** Every layer passed through the Savitzky-Golay filter of the window
      length `h_freq` stands for. */
  function SavgolSmoothed(d: map<Layer, seq<real>>, n: nat, hFreq: real, sfreq: real, lib: SignalLib): (r: map<Layer, seq<real>>)
    requires ValidLib(lib) && WellShaped(d, n) && SavgolCheck(hFreq, sfreq) == Pass
    ensures WellShaped(r, n)
  {
    var w := SavgolWindowLength(sfreq, hFreq);
    map[Agg := lib.savgol(d[Agg], w), L2 := lib.savgol(d[L2], w), L5 := lib.savgol(d[L5], w)]
  }

  /** `1e-3 * window_len * sfreq`: a window given in milliseconds, in samples. */
  function WindowSamples(windowLen: real, sfreq: real): real
  {
    0.001 * windowLen * sfreq
  }

  /** What `smooth` will do once its arguments are checked. */
  datatype SmoothPlan =
    | Skip                   // `winsz <= 1`: return without touching the data
    | HammingPass(winsz: real)
    | SavgolPass(hFreq: real)

  /** `smooth`'s argument checks, in the order they are raised, followed by
      the check `_savgol_filter` makes on its first layer before anything is
      written. */
  function PlanSmooth(windowLen: Option<real>, hFreq: Option<real>, sfreq: real, nTimes: nat): (r: Result<SmoothPlan, DipoleError>)
    ensures r.Err? <==>
      || windowLen.None? == hFreq.None?
      || (windowLen.Some? && WindowSamples(windowLen.value, sfreq) > nTimes as real)
      || (windowLen.None? && (hFreq.value < 0.0 || hFreq.value >= sfreq / 2.0 || hFreq.value == 0.0))
    ensures r == Ok(Skip) <==>
      && windowLen.Some? && hFreq.None?
      && WindowSamples(windowLen.value, sfreq) <= 1.0
      && WindowSamples(windowLen.value, sfreq) <= nTimes as real
    ensures r.Ok? && r.value.HammingPass? ==>
      windowLen.Some? && r.value.winsz == WindowSamples(windowLen.value, sfreq) && 1.0 < r.value.winsz <= nTimes as real
    ensures r.Ok? && r.value.SavgolPass? ==>
      hFreq == Some(r.value.hFreq) && SavgolCheck(r.value.hFreq, sfreq) == Pass
  {
    if windowLen.None? && hFreq.None? then Err(NoSmoothingArgument)
    else if windowLen.Some? && hFreq.Some? then Err(BothSmoothingArguments)
    else if windowLen.Some? then
      var winsz := WindowSamples(windowLen.value, sfreq);
      if winsz > nTimes as real then Err(WindowTooLong(winsz, nTimes))
      else if winsz <= 1.0 then Ok(Skip)
      else Ok(HammingPass(winsz))
    else
      var h := hFreq.value;
      if h < 0.0 then Err(NegativeHFreq)
      else if h > 0.5 * sfreq then Err(HFreqAboveHalfRate)
      else match SavgolCheck(h, sfreq)
        case Fail(e) => Err(Savgol(e))
        case Pass => Ok(SavgolPass(h))
  }

  /** `smooth` rejects `h_freq > sfreq / 2` itself; `h_freq == sfreq / 2`
      gets through and is rejected by `_savgol_filter`. */
  lemma HalfRateRejectedBySavgol(sfreq: real)
    requires sfreq > 0.0
    ensures PlanSmooth(None, Some(sfreq / 2.0), sfreq, 10) == Err(Savgol(HFreqNotBelowHalfRate))
    ensures PlanSmooth(None, Some(sfreq), sfreq, 10) == Err(HFreqAboveHalfRate)
  {
  }

  /** `post_proc` converts its window from samples to milliseconds and
      `smooth` converts it back: the window `smooth` uses is `winsz` samples. */
  lemma PostProcWindowRoundTrip(winsz: real, sfreq: real)
    requires sfreq != 0.0
    ensures WindowSamples(WindowMilliseconds(winsz, sfreq), sfreq) == winsz
  {
    var ms := winsz / (0.001 * sfreq);
    assert ms * (0.001 * sfreq) == winsz;
  }

  /** `winsz / (1e-3 * sfreq)`: a window given in samples, in milliseconds. */
  function WindowMilliseconds(winsz: real, sfreq: real): real
    requires sfreq != 0.0
  {
    winsz / (0.001 * sfreq)
  }

  // ---------------------------------------------------------------------
  // The Dipole object

  class Dipole {
    var units: string
    var n: nat
    var times: seq<real>
    var data: map<Layer, seq<real>>
    var nave: int
    var sfreq: real

    /** The shape the constructor establishes and every method keeps. */
    ghost predicate Valid()
      reads this
    {
      && |times| >= 2 && times[1] != times[0]
      && n == |times|
      && WellShaped(data, n)
      && sfreq == 1000.0 / (times[1] - times[0])
    }

    /** `Dipole(times, data, nave=1)`: columns 0, 1 and 2 of the `n x 3`
        array become `agg`, `L2` and `L5`; units start as 'fAm' and the
        sampling rate is derived from the first time step. */
    constructor (times: seq<real>, rows: seq<seq<real>>, nave: int := 1)
      requires |times| >= 2 && times[1] != times[0]
      requires |rows| == |times| && forall i :: 0 <= i < |rows| ==> |rows[i]| >= 3
      ensures Valid()
      ensures units == "fAm" && n == |rows| && this.times == times && this.nave == nave
      ensures data == map[Agg := Column(rows, 0), L2 := Column(rows, 1), L5 := Column(rows, 2)]
      ensures sfreq == 1000.0 / (times[1] - times[0])
    {
      units := "fAm";
      n := |rows|;
      this.times := times;
      data := map[Agg := Column(rows, 0), L2 := Column(rows, 1), L5 := Column(rows, 2)];
      this.nave := nave;
      sfreq := 1000.0 / (times[1] - times[0]);
    }

    /** A new object holding the same values as `src`. */
    constructor Duplicate(src: Dipole)
      requires src.Valid()
      ensures Valid()
      ensures units == src.units && n == src.n && times == src.times
      ensures data == src.data && nave == src.nave && sfreq == src.sfreq
    {
      units := src.units;
      n := src.n;
      times := src.times;
      data := src.data;
      nave := src.nave;
      sfreq := src.sfreq;
    }

    /** `copy()`: a deep copy; it is a different object, so later in-place
        changes to either leave the other alone. */
    method Copy() returns (c: Dipole)
      requires Valid()
      ensures fresh(c) && c.Valid()
      ensures c.units == units && c.n == n && c.times == times
      ensures c.data == data && c.nave == nave && c.sfreq == sfreq
    {
      c := new Dipole.Duplicate(this);
    }

    /** The `*=` loop over the keys shared by `convert_fAm_to_nAm` and
        `scale`. Only `data` may change. */
    method ScaleEachLayer(f: real)
      requires Valid()
      modifies this`data
      ensures Valid()
      ensures data == ScaleAll(old(data), f)
    {
      ghost var d0 := data;
      for j := 0 to |LayerKeys|
        invariant data.Keys == d0.Keys
        invariant forall i :: 0 <= i < |LayerKeys| ==>
          data[LayerKeys[i]] == if i < j then Scaled(d0[LayerKeys[i]], f) else d0[LayerKeys[i]]
      {
        var key := LayerKeys[j];
        data := data[key := Scaled(data[key], f)];
      }
      forall k | k in data ensures data[k] == ScaleAll(d0, f)[k] {
        LayerKeysCover(k);
      }
    }

    /** `convert_fAm_to_nAm()`: every layer times `1e-6`, units 'nAm'. */
    method ConvertFAmToNAm()
      requires Valid()
      modifies this`data, this`units
      ensures Valid()
      ensures data == ScaleAll(old(data), 0.000001) && units == "nAm"
    {
      ScaleEachLayer(0.000001);
      units := "nAm";
    }

    /** `scale(fctr)`: every layer times `fctr`; returns the object itself. */
    method Scale(fctr: real) returns (r: Dipole)
      requires Valid()
      modifies this`data
      ensures Valid()
      ensures r == this && data == ScaleAll(old(data), fctr)
    {
      ScaleEachLayer(fctr);
      r := this;
    }

    /** `baseline_renormalize(N_pyr_x, N_pyr_y)`. When the units are not
        'fAm' it only warns (`warned`) and leaves the data as it was;
        otherwise the layers become `Renormalized`. Times, units and `nave`
        are outside the frame and so unchanged. */
    method BaselineRenormalize(nx: int, ny: int) returns (warned: bool)
      requires Valid()
      modifies this`data
      ensures Valid()
      ensures warned <==> units != "fAm"
      ensures warned ==> data == old(data)
      ensures !warned ==> data == Renormalized(old(data), times, (nx * ny) as real)
    {
      if units != "fAm" {
        return true;
      }
      var npyr := (nx * ny) as real;
      ghost var d0 := data;
      data := data[L2 := Shifted(data[L2], npyr * L2Offset)];
      var l5 := data[L5];
      l5 := SubtractInRegime(l5, times, Early, npyr);
      l5 := SubtractInRegime(l5, times, Middle, npyr);
      l5 := SubtractInRegime(l5, times, Late, npyr);
      MaskedPassesArePiecewise(d0[L5], times, npyr);
      data := data[L5 := l5];
      data := data[Agg := Add(data[L2], data[L5])];
      ghost var want := Renormalized(d0, times, npyr);
      assert data[L2] == want[L2] && data[L5] == want[L5] && data[Agg] == want[Agg];
      LayersEqual(data, want);
      warned := false;
    }

    /** `smooth(window_len=..., h_freq=...)`. Every error is raised before a
        layer is written; `winsz <= 1` returns `None` with the data as it
        was; otherwise each layer is filtered and the object is returned. */
    method Smooth(windowLen: Option<real>, hFreq: Option<real>, lib: SignalLib)
      returns (r: Result<Option<Dipole>, DipoleError>)
      requires Valid() && ValidLib(lib)
      modifies this`data
      ensures Valid()
      ensures var p := PlanSmooth(windowLen, hFreq, sfreq, |times|);
        && (p.Err? ==> r == Err(p.error) && data == old(data))
        && (p == Ok(Skip) ==> r == Ok(None) && data == old(data))
        && (p.Ok? && p.value.HammingPass? ==>
              r == Ok(Some(this)) && data == HammingSmoothed(old(data), n, p.value.winsz, lib))
        && (p.Ok? && p.value.SavgolPass? ==>
              r == Ok(Some(this)) && data == SavgolSmoothed(old(data), n, p.value.hFreq, sfreq, lib))
    {
      if windowLen.None? && hFreq.None? {
        return Err(NoSmoothingArgument);
      } else if windowLen.Some? && hFreq.Some? {
        return Err(BothSmoothingArguments);
      }
      if windowLen.Some? {
        var winsz := WindowSamples(windowLen.value, sfreq);
        if winsz > |times| as real {
          return Err(WindowTooLong(winsz, |times|));
        } else if winsz <= 1.0 {
          return Ok(None);
        }
        SmoothHamming(winsz, lib);
      } else {
        var h := hFreq.value;
        if h < 0.0 {
          return Err(NegativeHFreq);
        } else if h > 0.5 * sfreq {
          return Err(HFreqAboveHalfRate);
        }
        var e := SmoothSavgol(h, lib);
        if e.Fail? {
          return Err(Savgol(e.error));
        }
      }
      r := Ok(Some(this));
    }

    /** The `_hammfilt` loop over the keys of `smooth`. */
    method SmoothHamming(winsz: real, lib: SignalLib)
      requires Valid() && ValidLib(lib) && 1.0 < winsz <= n as real
      modifies this`data
      ensures Valid()
      ensures data == HammingSmoothed(old(data), n, winsz, lib)
    {
      ghost var d0 := data;
      for j := 0 to |LayerKeys|
        invariant data.Keys == d0.Keys
        invariant forall i :: 0 <= i < |LayerKeys| ==>
          data[LayerKeys[i]] == if i < j then Hammfilt(d0[LayerKeys[i]], winsz, lib) else d0[LayerKeys[i]]
      {
        var key := LayerKeys[j];
        data := data[key := Hammfilt(data[key], winsz, lib)];
      }
      assert data[LayerKeys[0]] == Hammfilt(d0[Agg], winsz, lib);
      assert data[LayerKeys[1]] == Hammfilt(d0[L2], winsz, lib);
      assert data[LayerKeys[2]] == Hammfilt(d0[L5], winsz, lib);
      LayersEqual(data, HammingSmoothed(d0, n, winsz, lib));
    }

    /** The `_savgol_filter` loop over the keys of `smooth`. Its check fails
        on the first key or not at all, so a failure leaves every layer as
        it was. */
    method SmoothSavgol(h: real, lib: SignalLib) returns (e: Outcome<SavgolError>)
      requires Valid() && ValidLib(lib)
      modifies this`data
      ensures Valid()
      ensures e == SavgolCheck(h, sfreq)
      ensures e.Fail? ==> data == old(data)
      ensures e.Pass? ==> data == SavgolSmoothed(old(data), n, h, sfreq, lib)
    {
      ghost var d0 := data;
      for j := 0 to |LayerKeys|
        invariant data.Keys == d0.Keys
        invariant j > 0 ==> SavgolCheck(h, sfreq) == Pass
        invariant j == 0 ==> data == d0
        invariant forall i :: 0 <= i < |LayerKeys| ==>
          data[LayerKeys[i]] == if i < j then lib.savgol(d0[LayerKeys[i]], SavgolWindowLength(sfreq, h)) else d0[LayerKeys[i]]
      {
        var key := LayerKeys[j];
        var out := SavgolFilter(data[key], h, sfreq, lib);
        if out.Err? {
          return Fail(out.error);
        }
        data := data[key := out.value];
      }
      var w := SavgolWindowLength(sfreq, h);
      assert data[LayerKeys[0]] == lib.savgol(d0[Agg], w);
      assert data[LayerKeys[1]] == lib.savgol(d0[L2], w);
      assert data[LayerKeys[2]] == lib.savgol(d0[L5], w);
      LayersEqual(data, SavgolSmoothed(d0, n, h, sfreq, lib));
      e := Pass;
    }

    /** `post_proc(N_pyr_x, N_pyr_y, winsz, fctr)`: baseline, conversion to
        nAm, scaling, then Hamming smoothing over `winsz` samples. The steps
        are not undone when `smooth` raises: the data are then renormalised,
        converted and scaled. */
    method PostProc(nx: int, ny: int, winsz: real, fctr: real, lib: SignalLib) returns (r: Outcome<DipoleError>)
      requires Valid() && ValidLib(lib)
      modifies this`data, this`units
      ensures Valid() && units == "nAm"
      ensures var base := if old(units) == "fAm" then Renormalized(old(data), times, (nx * ny) as real) else old(data);
        var scaled := ScaleAll(base, 0.000001 * fctr);
        var p := PlanSmooth(Some(WindowMilliseconds(winsz, sfreq)), None, sfreq, |times|);
        && (p.Err? ==> r == Fail(p.error) && data == scaled)
        && (p == Ok(Skip) ==> r == Pass && data == scaled)
        && (p.Ok? && p.value.HammingPass? ==>
              p.value.winsz == winsz && r == Pass && data == HammingSmoothed(scaled, n, winsz, lib))
    {
      ghost var scaled := ScaleAll(if units == "fAm" then Renormalized(data, times, (nx * ny) as real) else data, 0.000001 * fctr);
      Rescale(nx, ny, fctr);
      assert data == scaled;
      var windowLen := WindowMilliseconds(winsz, sfreq);
      PostProcWindowRoundTrip(winsz, sfreq);
      var s := Smooth(Some(windowLen), None, lib);
      r := if s.Err? then Fail(s.error) else Pass;
    }

    /** The first three steps of `post_proc`: baseline (for 'fAm' data),
        conversion to nAm and scaling by `fctr`, which together multiply the
        renormalised layers by `1e-6 * fctr`. */
    method Rescale(nx: int, ny: int, fctr: real)
      requires Valid()
      modifies this`data, this`units
      ensures Valid() && units == "nAm"
      ensures data == ScaleAll(if old(units) == "fAm" then Renormalized(old(data), times, (nx * ny) as real) else old(data), 0.000001 * fctr)
    {
      ghost var d0, u0 := data, units;
      var warned := BaselineRenormalize(nx, ny);
      ghost var base := data;
      assert base == if u0 == "fAm" then Renormalized(d0, times, (nx * ny) as real) else d0;
      ConvertFAmToNAm();
      assert data == ScaleAll(base, 0.000001);
      var self := Scale(fctr);
      assert data == ScaleAll(ScaleAll(base, 0.000001), fctr);
      ScaleAllCompose(base, 0.000001, fctr);
      assert data == ScaleAll(base, 0.000001 * fctr);
    }
  }

  /** After `post_proc` on fresh 'fAm' data the aggregate is still the sum of
      the layers, whatever the scale factor and the window. */
  lemma PostProcAggIsSum(d: map<Layer, seq<real>>, times: seq<real>, npyr: real, f: real, winsz: real, lib: SignalLib)
    requires ValidLib(lib) && WellShaped(d, |times|) && 1.0 < winsz <= |times| as real
    ensures AggIsSum(HammingSmoothed(ScaleAll(Renormalized(d, times, npyr), f), |times|, winsz, lib))
  {
    var base := Renormalized(d, times, npyr);
    ScaleAllAggIsSum(base, f);
    HammingSmoothedAggIsSum(ScaleAll(base, f), |times|, winsz, lib);
  }

  // ---------------------------------------------------------------------
  // average_dipoles

  /** The index of the first trial count above one, if any. */
  function FirstAveraged(naves: seq<int>): (r: Option<nat>)
    ensures r.None? <==> forall j :: 0 <= j < |naves| ==> naves[j] <= 1
    ensures r.Some? ==>
      && r.value < |naves| && naves[r.value] > 1
      && forall j :: 0 <= j < r.value ==> naves[j] <= 1
  {
    if |naves| == 0 then None
    else if naves[0] > 1 then Some(0)
    else match FirstAveraged(naves[1..])
      case None => None
      case Some(k) => Some(k + 1)
  }

  /** The checks of `average_dipoles`, in order, on the trial counts and
      layer lengths of its inputs. */
  function AverageCheck(naves: seq<int>, lengths: seq<nat>): (r: Outcome<DipoleError>)
    requires |naves| == |lengths|
    ensures r == Fail(TooFewDipoles) <==> |naves| < 2
    ensures r.Fail? && r.error.AlreadyAveraged? ==>
      |naves| >= 2 && FirstAveraged(naves) == Some(r.error.index) && r.error.nave == naves[r.error.index]
    ensures r == Pass <==>
      && |naves| >= 2
      && (forall j :: 0 <= j < |naves| ==> naves[j] <= 1)
      && (forall j :: 0 <= j < |lengths| ==> lengths[j] == lengths[0])
  {
    if |naves| < 2 then Fail(TooFewDipoles)
    else match FirstAveraged(naves)
      case Some(k) => Fail(AlreadyAveraged(k, naves[k]))
      case None =>
        if forall j :: 0 <= j < |lengths| ==> lengths[j] == lengths[0] then Pass else Fail(RaggedTrials)
  }

  /** An average cannot be averaged again: as soon as one input already
      stands for two or more trials, the check fails at or before it. */
  lemma ReaverageRejected(naves: seq<int>, lengths: seq<nat>, k: nat)
    requires |naves| == |lengths| && k < |naves| && naves[k] >= 2
    ensures AverageCheck(naves, lengths).Fail?
    ensures |naves| >= 2 ==>
      AverageCheck(naves, lengths).error.AlreadyAveraged? && AverageCheck(naves, lengths).error.index <= k
  {
  }

  /** Layer `k` of every trial, in trial order. */
  function TrialLayer(trials: seq<map<Layer, seq<real>>>, k: Layer): (r: seq<seq<real>>)
    requires forall t :: 0 <= t < |trials| ==> k in trials[t]
    ensures |r| == |trials| && forall t :: 0 <= t < |trials| ==> r[t] == trials[t][k]
  {
    seq(|trials|, t requires 0 <= t < |trials| => trials[t][k])
  }

  lemma TrialLayerShape(trials: seq<map<Layer, seq<real>>>, n: nat, k: Layer)
    requires forall t :: 0 <= t < |trials| ==> WellShaped(trials[t], n)
    ensures forall t :: 0 <= t < |trials| ==> k in trials[t]
    ensures Rectangular(TrialLayer(trials, k), n)
  {
    LayerKeysCover(k);
  }

  /** `np.mean(np.array([dpl.data[key] for dpl in dpls]), axis=0)` for each
      of the three keys. */
  function AveragedData(trials: seq<map<Layer, seq<real>>>, n: nat): (r: map<Layer, seq<real>>)
    requires |trials| > 0 && forall t :: 0 <= t < |trials| ==> WellShaped(trials[t], n)
    ensures WellShaped(r, n)
  {
    TrialLayerShape(trials, n, Agg);
    TrialLayerShape(trials, n, L2);
    TrialLayerShape(trials, n, L5);
    map[Agg := MeanAcross(TrialLayer(trials, Agg), n),
        L2 := MeanAcross(TrialLayer(trials, L2), n),
        L5 := MeanAcross(TrialLayer(trials, L5), n)]
  }

  /** Averaging trials that each satisfy `agg == L2 + L5` gives an average
      that satisfies it too. */
  lemma AveragedAggIsSum(trials: seq<map<Layer, seq<real>>>, n: nat)
    requires |trials| > 0 && forall t :: 0 <= t < |trials| ==> WellShaped(trials[t], n) && AggIsSum(trials[t])
    ensures AggIsSum(AveragedData(trials, n))
  {
    var agg, l2, l5 := TrialLayer(trials, Agg), TrialLayer(trials, L2), TrialLayer(trials, L5);
    MeanAcrossAdd(agg, l2, l5, n);
  }

  /** The average of identical trials is that trial. */
  lemma AveragedIdentical(trials: seq<map<Layer, seq<real>>>, d: map<Layer, seq<real>>, n: nat)
    requires |trials| > 0 && WellShaped(d, n) && forall t :: 0 <= t < |trials| ==> trials[t] == d
    ensures AveragedData(trials, n) == map[Agg := d[Agg], L2 := d[L2], L5 := d[L5]]
  {
    MeanAcrossIdentical(TrialLayer(trials, Agg), d[Agg]);
    MeanAcrossIdentical(TrialLayer(trials, L2), d[L2]);
    MeanAcrossIdentical(TrialLayer(trials, L5), d[L5]);
  }

  /** Averaging commutes with scaling: scaling every trial by `f` scales the
      average by `f`. */
  lemma AveragedScaled(trials: seq<map<Layer, seq<real>>>, scaled: seq<map<Layer, seq<real>>>, n: nat, f: real)
    requires |trials| > 0 && |scaled| == |trials|
    requires forall t :: 0 <= t < |trials| ==> WellShaped(trials[t], n) && scaled[t] == ScaleAll(trials[t], f)
    requires forall t :: 0 <= t < |scaled| ==> WellShaped(scaled[t], n)
    ensures AveragedData(scaled, n) == ScaleAll(AveragedData(trials, n), f)
  {
    var avg := AveragedData(trials, n);
    var lhs, rhs := AveragedData(scaled, n), ScaleAll(avg, f);
    AveragedScaledAt(trials, scaled, n, f, Agg);
    AveragedScaledAt(trials, scaled, n, f, L2);
    AveragedScaledAt(trials, scaled, n, f, L5);
    assert rhs[Agg] == Scaled(avg[Agg], f) && rhs[L2] == Scaled(avg[L2], f) && rhs[L5] == Scaled(avg[L5], f);
    LayersEqual(lhs, rhs);
  }

  /** One layer of `AveragedScaled`. */
  lemma AveragedScaledAt(trials: seq<map<Layer, seq<real>>>, scaled: seq<map<Layer, seq<real>>>, n: nat, f: real, k: Layer)
    requires |trials| > 0 && |scaled| == |trials|
    requires forall t :: 0 <= t < |trials| ==> WellShaped(trials[t], n) && scaled[t] == ScaleAll(trials[t], f)
    requires forall t :: 0 <= t < |scaled| ==> WellShaped(scaled[t], n)
    ensures forall t :: 0 <= t < |trials| ==> k in trials[t] && k in scaled[t]
    ensures Rectangular(TrialLayer(trials, k), n) && Rectangular(TrialLayer(scaled, k), n)
    ensures MeanAcross(TrialLayer(scaled, k), n) == Scaled(MeanAcross(TrialLayer(trials, k), n), f)
  {
    TrialLayerShape(trials, n, k);
    TrialLayerShape(scaled, n, k);
    var ts, ss := TrialLayer(trials, k), TrialLayer(scaled, k);
    forall t, i | 0 <= t < |trials| && 0 <= i < n ensures ss[t][i] == f * ts[t][i] {
      assert ss[t] == Scaled(trials[t][k], f);
    }
    MeanAcrossScaled(ts, ss, n, f);
    var avgT, avgS := MeanAcross(ts, n), MeanAcross(ss, n);
    assert |avgS| == |Scaled(avgT, f)|;
    forall i | 0 <= i < n ensures avgS[i] == Scaled(avgT, f)[i] {
    }
  }

  /** `np.c_[agg, L2, L5]`: three columns side by side. Taking the columns
      back out gives the three inputs. */
  function Stacked(a: seq<real>, b: seq<real>, c: seq<real>): (rows: seq<seq<real>>)
    requires |a| == |b| == |c|
    ensures |rows| == |a| && forall i :: 0 <= i < |rows| ==> |rows[i]| == 3
    ensures Column(rows, 0) == a && Column(rows, 1) == b && Column(rows, 2) == c
  {
    seq(|a|, i requires 0 <= i < |a| => [a[i], b[i], c[i]])
  }

  /** The trial counts of a list of dipoles. */
  function Naves(dpls: seq<Dipole>): (r: seq<int>)
    reads dpls
    ensures |r| == |dpls| && forall i :: 0 <= i < |dpls| ==> r[i] == dpls[i].nave
  {
    seq(|dpls|, i requires 0 <= i < |dpls| reads dpls => dpls[i].nave)
  }

  /** The sample counts of a list of dipoles. */
  function Lengths(dpls: seq<Dipole>): (r: seq<nat>)
    reads dpls
    ensures |r| == |dpls| && forall i :: 0 <= i < |dpls| ==> r[i] == dpls[i].n
  {
    seq(|dpls|, i requires 0 <= i < |dpls| reads dpls => dpls[i].n)
  }

  /** The layer maps of a list of dipoles. */
  function Trials(dpls: seq<Dipole>): (r: seq<map<Layer, seq<real>>>)
    reads dpls
    ensures |r| == |dpls| && forall i :: 0 <= i < |dpls| ==> r[i] == dpls[i].data
  {
    seq(|dpls|, i requires 0 <= i < |dpls| reads dpls => dpls[i].data)
  }

  /** `average_dipoles(dpls)`. It needs two or more dipoles, none of them
      already an average (the first offending index is reported), all of the
      same length; it then returns a new dipole on the first input's time
      axis whose layers are the means and whose `nave` is the number of
      inputs. Its units are the constructor's 'fAm' whatever the inputs'
      units. The inputs are not modified (the method has no frame). */
  method AverageDipoles(dpls: seq<Dipole>) returns (r: Result<Dipole, DipoleError>)
    requires forall i :: 0 <= i < |dpls| ==> dpls[i].Valid()
    ensures r.Err? <==> AverageCheck(Naves(dpls), Lengths(dpls)).Fail?
    ensures r.Err? ==> AverageCheck(Naves(dpls), Lengths(dpls)) == Fail(r.error)
    ensures r.Ok? ==>
      && |dpls| >= 2 && (forall i :: 0 <= i < |dpls| ==> dpls[i].n == dpls[0].n)
      && (forall i :: 0 <= i < |dpls| ==> WellShaped(dpls[i].data, dpls[0].n))
      && fresh(r.value) && r.value.Valid()
      && r.value.times == dpls[0].times && r.value.nave == |dpls| && r.value.units == "fAm"
      && r.value.data == AveragedData(Trials(dpls), dpls[0].n)
  {
    var check := CheckAverageable(dpls);
    if check.Fail? {
      return Err(check.error);
    }
    var n := dpls[0].n;
    var trials := Trials(dpls);
    assert forall t :: 0 <= t < |trials| ==> WellShaped(trials[t], n);
    var avg := AveragedData(trials, n);
    var out := NewAverage(dpls[0].times, avg, |dpls|);
    return Ok(out);
  }

  /** The input checks of `average_dipoles`, in the order it makes them:
      the count, then each trial's `nave`, then equal lengths. */
  method CheckAverageable(dpls: seq<Dipole>) returns (r: Outcome<DipoleError>)
    ensures r == AverageCheck(Naves(dpls), Lengths(dpls))
  {
    ghost var naves, lengths := Naves(dpls), Lengths(dpls);
    if |dpls| < 2 {
      return Fail(TooFewDipoles);
    }
    for idx := 0 to |dpls|
      invariant forall j :: 0 <= j < idx ==> naves[j] <= 1
    {
      if dpls[idx].nave > 1 {
        assert FirstAveraged(naves) == Some(idx);
        return Fail(AlreadyAveraged(idx, dpls[idx].nave));
      }
    }
    assert FirstAveraged(naves) == None;
    var n := dpls[0].n;
    if exists j :: 0 <= j < |dpls| && dpls[j].n != n {
      return Fail(RaggedTrials);
    }
    return Pass;
  }

  /** `Dipole(times, np.c_[agg, L2, L5])` followed by `nave = count`: the
      stacked columns come back out as the same three layers. */
  method NewAverage(times: seq<real>, avg: map<Layer, seq<real>>, count: int) returns (out: Dipole)
    requires |times| >= 2 && times[1] != times[0] && WellShaped(avg, |times|)
    ensures fresh(out) && out.Valid()
    ensures out.times == times && out.nave == count && out.units == "fAm" && out.data == avg
  {
    var rows := Stacked(avg[Agg], avg[L2], avg[L5]);
    out := new Dipole(times, rows);
    out.nave := count;
    LayersEqual(out.data, avg);
  }
}
