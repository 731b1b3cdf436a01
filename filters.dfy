/** The two smoothing filters of hnn_core/dipole.py, as functions of one
    layer's samples: `_hammfilt` (convolution with a normalised Hamming
    window, NumPy's 'same' mode) and `_savgol_filter` (the Savitzky-Golay
    window-length rule and its range checks). The window values of
    `numpy.hamming` and SciPy's `savgol_filter` are supplied from outside as
    a `SignalLib`; everything else is written out. */
module Filters {
  import opened Common
  import opened Arrays

  /** The library primitives the filters call. `hamming(m)` stands for
      `numpy.hamming(m)`; `savgol(x, w)` for
      `scipy.signal.savgol_filter(x, polyorder=5, window_length=w)`. */
  datatype SignalLib = SignalLib(hamming: real -> seq<real>, savgol: (seq<real>, int) -> seq<real>)

  /** What the model relies on of the primitives: a Hamming window of a real
      length `m > 1` has `HammingLength(m)` strictly positive points, and the
      Savitzky-Golay filter returns as many samples as it is given. */
  ghost predicate ValidLib(lib: SignalLib)
  {
    && (forall m: real :: m > 1.0 ==> |lib.hamming(m)| == HammingLength(m))
    && (forall m: real, i :: m > 1.0 && 0 <= i < |lib.hamming(m)| ==> lib.hamming(m)[i] > 0.0)
    && (forall x, w :: |lib.savgol(x, w)| == |x|)
  }

  // ---------------------------------------------------------------------
  // _hammfilt

  /** Number of points of `numpy.hamming(m)` for a real `m > 1`: the window is
      evaluated at `np.arange(1 - m, m, 2)`, which has `ceil(m - 1/2)` points. */
  function HammingLength(m: real): (k: nat)
    requires m > 1.0
    ensures (k as real) - 0.5 < m <= (k as real) + 0.5
  {
    var c := (m - 0.5).Floor;
    if (c as real) == m - 0.5 then c else c + 1
  }

  /** A window requested no longer than the data is no longer than the data. */
  lemma HammingFits(m: real, n: nat)
    requires 1.0 < m <= n as real
    ensures 1 <= HammingLength(m) <= n
  {
  }

  /** `win /= sum(win)`: the window rescaled so that its weights sum to one. */
  function Normalized(w: seq<real>): (r: seq<real>)
    requires Sum(w) != 0.0
    ensures |r| == |w| && Sum(r) == 1.0
    ensures forall i :: 0 <= i < |w| ==> r[i] * Sum(w) == w[i]
  {
    var total := Sum(w);
    var r := seq(|w|, i requires 0 <= i < |w| => 1.0 / total * w[i]);
    NormalizedSum(w, r, total);
    DividedBack(w, r, total);
    r
  }

  /** The weights divided by their total sum to one. */
  lemma NormalizedSum(w: seq<real>, r: seq<real>, total: real)
    requires total == Sum(w) && total != 0.0 && |r| == |w|
    requires forall i :: 0 <= i < |w| ==> r[i] == 1.0 / total * w[i]
    ensures Sum(r) == 1.0
  {
    SumScaled(w, r, 1.0 / total);
    InverseTimes(Sum(r), total);
  }

  lemma InverseTimes(x: real, total: real)
    requires total != 0.0 && x == 1.0 / total * total
    ensures x == 1.0
  {
  }

  /** Each weight divided by the total and multiplied back is the weight,
      and the divided weights sum to the sum over the total. */
  lemma DividedBack(w: seq<real>, r: seq<real>, total: real)
    requires total != 0.0 && |r| == |w|
    requires forall i :: 0 <= i < |w| ==> r[i] == 1.0 / total * w[i]
    ensures forall i :: 0 <= i < |w| ==> r[i] * total == w[i]
  {
    forall i | 0 <= i < |w| ensures r[i] * total == w[i] {
      assert r[i] * total == w[i] * (1.0 / total * total);
    }
  }


  /** A non-empty window of positive weights has a positive sum. */
  lemma {:induction false} SumPositive(w: seq<real>)
    requires |w| > 0 && forall i :: 0 <= i < |w| ==> w[i] > 0.0
    ensures Sum(w) > 0.0
  {
    if |w| > 1 {
      SumPositive(w[1..]);
    }
  }

  /** Sample `k` of `x`, and zero outside the array. */
  function Tap(x: seq<real>, k: int): real
  {
    if 0 <= k < |x| then x[k] else 0.0
  }

  /** Sample `k` of the full convolution of `x` with the first `m` weights of
      `w`: the sum of `w[j] * x[k - j]` over `j < m`. */
  function FullAt(x: seq<real>, w: seq<real>, k: int, m: nat): real
    requires m <= |w|
  {
    if m == 0 then 0.0 else FullAt(x, w, k, m - 1) + w[m - 1] * Tap(x, k - (m - 1))
  }

  /** `numpy.convolve(x, w, 'same')` for a window no longer than the data:
      the full convolution re-centred on `x`, shifted by `(|w| - 1) / 2`. */
  function ConvolveSame(x: seq<real>, w: seq<real>): (r: seq<real>)
    requires 1 <= |w| <= |x|
    ensures |r| == |x|
  {
    seq(|x|, i requires 0 <= i < |x| => FullAt(x, w, i + (|w| - 1) / 2, |w|))
  }

  /** `_hammfilt(x, winsz)`: convolution with the Hamming window of length
      `winsz`, normalised to unit sum, output as long as the input. */
  function Hammfilt(x: seq<real>, winsz: real, lib: SignalLib): (r: seq<real>)
    requires ValidLib(lib) && 1.0 < winsz <= |x| as real
    ensures |r| == |x|
  {
    var w := lib.hamming(winsz);
    HammingFits(winsz, |x|);
    SumPositive(w);
    ConvolveSame(x, Normalized(w))
  }

  /** Convolution is additive in the signal. */
  lemma {:induction false} FullAtAdd(x: seq<real>, y: seq<real>, z: seq<real>, w: seq<real>, k: int, m: nat)
    requires |x| == |y| == |z| && m <= |w|
    requires forall i :: 0 <= i < |z| ==> z[i] == x[i] + y[i]
    ensures FullAt(z, w, k, m) == FullAt(x, w, k, m) + FullAt(y, w, k, m)
  {
    if m > 0 {
      FullAtAdd(x, y, z, w, k, m - 1);
      assert Tap(z, k - (m - 1)) == Tap(x, k - (m - 1)) + Tap(y, k - (m - 1));
    }
  }

  /** Smoothing the sum of two layers gives the sum of the smoothed layers, so
      `agg == L2 + L5` survives Hamming smoothing. */
  lemma HammfiltAdd(x: seq<real>, y: seq<real>, z: seq<real>, winsz: real, lib: SignalLib)
    requires ValidLib(lib) && |x| == |y| == |z| && 1.0 < winsz <= |z| as real
    requires forall i :: 0 <= i < |z| ==> z[i] == x[i] + y[i]
    ensures forall i :: 0 <= i < |z| ==>
      Hammfilt(z, winsz, lib)[i] == Hammfilt(x, winsz, lib)[i] + Hammfilt(y, winsz, lib)[i]
  {
    HammingFits(winsz, |z|);
    SumPositive(lib.hamming(winsz));
    var w := Normalized(lib.hamming(winsz));
    forall i | 0 <= i < |z|
      ensures Hammfilt(z, winsz, lib)[i] == Hammfilt(x, winsz, lib)[i] + Hammfilt(y, winsz, lib)[i]
    {
      FullAtAdd(x, y, z, w, i + (|w| - 1) / 2, |w|);
    }
  }

  /** A unit impulse at `p`: the full convolution at `k` picks weight `k - p`. */
  lemma {:induction false} FullAtImpulse(x: seq<real>, w: seq<real>, p: nat, k: int, m: nat)
    requires p < |x| && x[p] == 1.0 && forall i :: 0 <= i < |x| && i != p ==> x[i] == 0.0
    requires m <= |w|
    ensures FullAt(x, w, k, m) == if 0 <= k - p < m then w[k - p] else 0.0
  {
    if m > 0 {
      FullAtImpulse(x, w, p, k, m - 1);
    }
  }

  /** The same-mode response to a unit impulse at `p` is the window, placed so
      that it starts at `p - (|w| - 1) / 2`, and is zero elsewhere. */
  lemma ConvolveImpulse(x: seq<real>, w: seq<real>, p: nat)
    requires 1 <= |w| <= |x|
    requires p < |x| && x[p] == 1.0 && forall i :: 0 <= i < |x| && i != p ==> x[i] == 0.0
    ensures forall i :: 0 <= i < |x| ==>
      ConvolveSame(x, w)[i] == Tap(w, i + (|w| - 1) / 2 - p)
  {
    forall i | 0 <= i < |x| ensures ConvolveSame(x, w)[i] == Tap(w, i + (|w| - 1) / 2 - p) {
      FullAtImpulse(x, w, p, i + (|w| - 1) / 2, |w|);
    }
  }

  /** When the window fits inside the data around the impulse, smoothing the
      impulse conserves its total: the output sums to one. */
  lemma HammfiltImpulseSum(x: seq<real>, winsz: real, lib: SignalLib, p: nat)
    requires ValidLib(lib) && 1.0 < winsz <= |x| as real
    requires p < |x| && x[p] == 1.0 && forall i :: 0 <= i < |x| && i != p ==> x[i] == 0.0
    requires (HammingLength(winsz) - 1) / 2 <= p
    requires p - (HammingLength(winsz) - 1) / 2 + HammingLength(winsz) <= |x|
    ensures Sum(Hammfilt(x, winsz, lib)) == 1.0
    ensures forall i :: 0 <= i < |x| && !(p - (HammingLength(winsz) - 1) / 2 <= i < p - (HammingLength(winsz) - 1) / 2 + HammingLength(winsz)) ==>
      Hammfilt(x, winsz, lib)[i] == 0.0
  {
    HammingFits(winsz, |x|);
    SumPositive(lib.hamming(winsz));
    var w := Normalized(lib.hamming(winsz));
    var out := Hammfilt(x, winsz, lib);
    var start := p - (|w| - 1) / 2;
    ConvolveImpulse(x, w, p);
    var pre, post := Zeros(start), Zeros(|x| - start - |w|);
    assert out == pre + w + post by {
      forall i | 0 <= i < |x| ensures out[i] == (pre + w + post)[i] {
        if i < start {
        } else if i < start + |w| {
          assert (pre + w + post)[i] == w[i - start];
        } else {
          assert (pre + w + post)[i] == post[i - start - |w|];
        }
      }
    }
    SumAppend(pre + w, post);
    SumAppend(pre, w);
    SumConstant(pre, 0.0);
    SumConstant(post, 0.0);
  }

  // ---------------------------------------------------------------------
  // _savgol_filter

  /** `int(np.round(x))`: the nearest integer, ties to the even one. */
  function RoundHalfEven(x: real): (r: int)
    ensures -0.5 <= (r as real) - x <= 0.5
    ensures ((r as real) - x == 0.5 || x - (r as real) == 0.5) ==> r % 2 == 0
  {
    var f := x.Floor;
    var frac := x - (f as real);
    if frac < 0.5 then f
    else if frac > 0.5 then f + 1
    else if f % 2 == 0 then f
    else f + 1
  }

  /** `(int(np.round(sfreq / h_freq)) // 2) * 2 + 1`: the window length that
      the cutoff frequency `h_freq` stands for, always odd. */
  function SavgolWindowLength(sfreq: real, hFreq: real): (w: int)
    requires hFreq != 0.0
    ensures w % 2 == 1
    ensures -1.5 <= (w as real) - sfreq / hFreq <= 1.5
    ensures 0.0 < 2.0 * hFreq < sfreq ==> w >= 3
  {
    var k := RoundHalfEven(sfreq / hFreq);
    assert 0.0 < 2.0 * hFreq < sfreq ==> sfreq / hFreq > 2.0 by {
      if 0.0 < 2.0 * hFreq < sfreq {
        DivGreater(sfreq, hFreq);
      }
    }
    (k / 2) * 2 + 1
  }

  /** The window is at most 5 points, too short for the 5th-order
      polynomial SciPy fits, exactly when `sfreq / h_freq < 5.5`: with the
      range check, every cutoff in the band `(sfreq / 5.5, sfreq / 2)`. */
  lemma SavgolWindowAtMostFive(sfreq: real, hFreq: real)
    requires 0.0 < hFreq && 0.0 < sfreq
    ensures SavgolWindowLength(sfreq, hFreq) <= 5 <==> sfreq / hFreq < 5.5
  {
    var x := sfreq / hFreq;
    var k := RoundHalfEven(x);
    assert x > 0.0;
    assert SavgolWindowLength(sfreq, hFreq) == (k / 2) * 2 + 1;
    if x < 5.5 {
      assert 0 <= k <= 5;
    } else {
      assert k >= 6;
    }
  }

  lemma DivGreater(a: real, b: real)
    requires 0.0 < 2.0 * b < a
    ensures a / b > 2.0
  {
    assert a / b * b == a;
  }

  /** The errors `_savgol_filter` raises itself. */
  datatype SavgolError =
    | HFreqNotBelowHalfRate  // `h_freq >= sfreq / 2`
    | ZeroHFreq              // `sfreq / 0` is infinite and `int(inf)` overflows

  /** The checks `_savgol_filter` applies before filtering; they depend on the
      frequencies only, never on the samples. */
  function SavgolCheck(hFreq: real, sfreq: real): (r: Outcome<SavgolError>)
    ensures r == Pass <==> hFreq < sfreq / 2.0 && hFreq != 0.0
  {
    if hFreq >= sfreq / 2.0 then Fail(HFreqNotBelowHalfRate)
    else if hFreq == 0.0 then Fail(ZeroHFreq)
    else Pass
  }

  /** `_savgol_filter(x, h_freq, sfreq)`: the range check, then a fifth-order
      Savitzky-Golay filter of the derived odd window length. */
  function SavgolFilter(x: seq<real>, hFreq: real, sfreq: real, lib: SignalLib): (r: Result<seq<real>, SavgolError>)
    requires ValidLib(lib)
    ensures r.Ok? <==> SavgolCheck(hFreq, sfreq) == Pass
    ensures r.Err? ==> SavgolCheck(hFreq, sfreq) == Fail(r.error)
    ensures r.Ok? ==> |r.value| == |x|
  {
    match SavgolCheck(hFreq, sfreq)
    case Fail(e) => Err(e)
    case Pass => Ok(lib.savgol(x, SavgolWindowLength(sfreq, hFreq)))
  }
}
