/** The NumPy array operations the toolkit uses, over sequences of real
    samples: sums and means, elementwise arithmetic, column extraction,
    strided slicing (`x[::d]`) and reversal (`x[::-1]`). */
module Arrays {

  /** `np.sum` of a one-dimensional array. */
  function Sum(s: seq<real>): real
  {
    if |s| == 0 then 0.0 else s[0] + Sum(s[1..])
  }

  /** `f * s` (and `s *= f`): every sample multiplied by `f`. */
  function Scaled(s: seq<real>, f: real): seq<real>
  {
    seq(|s|, i requires 0 <= i < |s| => f * s[i])
  }

  /** `s - c` (and `s -= c`): the constant `c` subtracted from every sample. */
  function Shifted(s: seq<real>, c: real): seq<real>
  {
    seq(|s|, i requires 0 <= i < |s| => s[i] - c)
  }

  /** `a + b` for two arrays of one shape. */
  function Add(a: seq<real>, b: seq<real>): seq<real>
    requires |a| == |b|
  {
    seq(|a|, i requires 0 <= i < |a| => a[i] + b[i])
  }

  /** `np.zeros((n,))`. */
  function Zeros(n: nat): seq<real>
  {
    seq(n, _ => 0.0)
  }

  /** `rows[:, j]` of a two-dimensional array given row by row. */
  function Column(rows: seq<seq<real>>, j: nat): seq<real>
    requires forall i :: 0 <= i < |rows| ==> j < |rows[i]|
  {
    seq(|rows|, i requires 0 <= i < |rows| => rows[i][j])
  }

  /** The values of all trials at sample `i`: `np.array(trials)[:, i]`. */
  function Across(trials: seq<seq<real>>, i: nat): seq<real>
    requires forall k :: 0 <= k < |trials| ==> i < |trials[k]|
  {
    seq(|trials|, k requires 0 <= k < |trials| => trials[k][i])
  }

  /** `np.mean` of a non-empty one-dimensional array. */
  function Mean(xs: seq<real>): real
    requires |xs| > 0
  {
    Sum(xs) / (|xs| as real)
  }

  /** Trials of `n` samples each, all of one length. */
  predicate Rectangular(trials: seq<seq<real>>, n: nat)
  {
    forall k :: 0 <= k < |trials| ==> |trials[k]| == n
  }

  /** `np.mean(np.array(trials), axis=0)`: the elementwise mean of the trials. */
  function MeanAcross(trials: seq<seq<real>>, n: nat): (r: seq<real>)
    requires |trials| > 0 && Rectangular(trials, n)
    ensures |r| == n
  {
    seq(n, i requires 0 <= i < n => Mean(Across(trials, i)))
  }

  /** `x[::d]` for a positive step: the first sample, then every `d`-th. */
  function Stride(s: seq<real>, d: nat): seq<real>
    requires d > 0
    decreases |s|
  {
    if |s| == 0 then [] else [s[0]] + Stride(s[if d < |s| then d else |s|..], d)
  }

  /** `x[::-1]`: the samples in reverse order. */
  function Reverse(s: seq<real>): seq<real>
    decreases |s|
  {
    if |s| == 0 then [] else [s[|s| - 1]] + Reverse(s[..|s| - 1])
  }

  // ---------------------------------------------------------------------
  // Sums

  /** Summation distributes over elementwise addition. */
  lemma {:induction false} SumAdd(a: seq<real>, b: seq<real>, c: seq<real>)
    requires |a| == |b| == |c|
    requires forall i :: 0 <= i < |c| ==> c[i] == a[i] + b[i]
    ensures Sum(c) == Sum(a) + Sum(b)
  {
    if |c| > 0 {
      SumAdd(a[1..], b[1..], c[1..]);
    }
  }

  /** Summation commutes with scaling by a constant. */
  lemma {:induction false} SumScaled(s: seq<real>, t: seq<real>, f: real)
    requires |t| == |s|
    requires forall i :: 0 <= i < |t| ==> t[i] == f * s[i]
    ensures Sum(t) == f * Sum(s)
  {
    if |t| > 0 {
      SumScaled(s[1..], t[1..], f);
    }
  }

  /** The sum of `|s|` copies of `c` is `|s| * c`. */
  lemma {:induction false} SumConstant(s: seq<real>, c: real)
    requires forall i :: 0 <= i < |s| ==> s[i] == c
    ensures Sum(s) == (|s| as real) * c
  {
    if |s| > 0 {
      SumConstant(s[1..], c);
    }
  }

  /** Sum splits over concatenation. */
  lemma {:induction false} SumAppend(a: seq<real>, b: seq<real>)
    ensures Sum(a + b) == Sum(a) + Sum(b)
  {
    if |a| == 0 {
      assert a + b == b;
    } else {
      assert (a + b)[0] == a[0];
      assert (a + b)[1..] == a[1..] + b;
      SumAppend(a[1..], b);
    }
  }

  // ---------------------------------------------------------------------
  // Means across trials

  /** Averaging trials whose aggregate is the sum of the two layers gives an
      average whose aggregate is the sum of the two averaged layers. */
  lemma {:induction false} MeanAcrossAdd(agg: seq<seq<real>>, l2: seq<seq<real>>, l5: seq<seq<real>>, n: nat)
    requires |agg| > 0 && |agg| == |l2| == |l5|
    requires Rectangular(agg, n) && Rectangular(l2, n) && Rectangular(l5, n)
    requires forall k, i :: 0 <= k < |agg| && 0 <= i < n ==> agg[k][i] == l2[k][i] + l5[k][i]
    ensures forall i :: 0 <= i < n ==>
      MeanAcross(agg, n)[i] == MeanAcross(l2, n)[i] + MeanAcross(l5, n)[i]
  {
    forall i | 0 <= i < n
      ensures MeanAcross(agg, n)[i] == MeanAcross(l2, n)[i] + MeanAcross(l5, n)[i]
    {
      SumAdd(Across(l2, i), Across(l5, i), Across(agg, i));
      MeanSplit(Sum(Across(l2, i)), Sum(Across(l5, i)), |agg|);
    }
  }

  lemma {:induction false} MeanSplit(x: real, y: real, k: nat)
    requires k > 0
    ensures (x + y) / (k as real) == x / (k as real) + y / (k as real)
  {
  }

  /** Averaging identical trials returns that trial unchanged. */
  lemma {:induction false} MeanAcrossIdentical(trials: seq<seq<real>>, x: seq<real>)
    requires |trials| > 0 && forall k :: 0 <= k < |trials| ==> trials[k] == x
    ensures MeanAcross(trials, |x|) == x
  {
    forall i | 0 <= i < |x| ensures MeanAcross(trials, |x|)[i] == x[i] {
      SumConstant(Across(trials, i), x[i]);
    }
  }

  /** Averaging commutes with scaling every trial by one factor. */
  lemma {:induction false} MeanAcrossScaled(trials: seq<seq<real>>, scaled: seq<seq<real>>, n: nat, f: real)
    requires |trials| > 0 && |scaled| == |trials|
    requires Rectangular(trials, n) && Rectangular(scaled, n)
    requires forall k, i :: 0 <= k < |trials| && 0 <= i < n ==> scaled[k][i] == f * trials[k][i]
    ensures forall i :: 0 <= i < n ==> MeanAcross(scaled, n)[i] == f * MeanAcross(trials, n)[i]
  {
    forall i | 0 <= i < n ensures MeanAcross(scaled, n)[i] == f * MeanAcross(trials, n)[i] {
      SumScaled(Across(trials, i), Across(scaled, i), f);
    }
  }

  // ---------------------------------------------------------------------
  // Strided slicing

  /** `x[::d]` keeps `ceil(|x| / d)` samples: the least `L` with `L * d >= |x|`. */
  lemma {:induction false} StrideLength(s: seq<real>, d: nat)
    requires d > 0
    ensures |s| == 0 ==> |Stride(s, d)| == 0
    ensures |s| > 0 ==> (|Stride(s, d)| - 1) * d < |s| <= |Stride(s, d)| * d
  {
    if |s| > 0 && d < |s| {
      StrideLength(s[d..], d);
    }
  }

  /** The closed form of the length: `(|x| + d - 1) / d`. */
  lemma {:induction false} StrideLengthCeil(s: seq<real>, d: nat)
    requires d > 0
    ensures |Stride(s, d)| == (|s| + d - 1) / d
  {
    StrideLength(s, d);
    var len := |Stride(s, d)|;
    var r := |s| + d - 1 - len * d;
    assert 0 <= r < d;
    DivUnique(|s| + d - 1, d, len, r);
  }

  lemma {:induction false} DivUnique(a: int, b: int, q: int, r: int)
    requires b > 0 && 0 <= r < b && a == q * b + r
    ensures a / b == q
  {
    var q' := a / b;
    assert a == q' * b + a % b;
    if q' > q {
      MulMono(q + 1, q', b);
    } else if q' < q {
      MulMono(q' + 1, q, b);
    }
  }

  /** Sample `j` of `x[::d]` is sample `j * d` of `x`. */
  lemma {:induction false} StrideAt(s: seq<real>, d: nat, j: nat)
    requires d > 0 && j < |Stride(s, d)|
    ensures j * d < |s| && Stride(s, d)[j] == s[j * d]
  {
    if j > 0 {
      assert d < |s|;
      var rest := s[d..];
      assert Stride(s, d) == [s[0]] + Stride(rest, d);
      StrideAt(rest, d, j - 1);
      var k := (j - 1) * d;
      assert k + d == j * d by { MulSucc(j, d); }
      assert Stride(s, d)[j] == rest[k];
    }
  }

  lemma {:induction false} MulSucc(j: int, d: int)
    ensures (j - 1) * d + d == j * d
  {
  }

  /** A step of one keeps every sample: `x[::1] == x`. */
  lemma {:induction false} StrideOne(s: seq<real>)
    ensures Stride(s, 1) == s
  {
    if |s| > 0 {
      StrideOne(s[1..]);
    }
  }

  /** Two successive strides are one stride by the product:
      `x[::a][::b] == x[::a*b]`. */
  lemma {:induction false} StrideCompose(s: seq<real>, a: nat, b: nat)
    requires a > 0 && b > 0
    ensures Stride(Stride(s, a), b) == Stride(s, a * b)
  {
    StrideComposeLength(s, a, b);
    forall j | 0 <= j < |Stride(Stride(s, a), b)|
      ensures Stride(Stride(s, a), b)[j] == Stride(s, a * b)[j]
    {
      StrideComposeAt(s, a, b, j);
    }
  }

  lemma {:induction false} StrideComposeAt(s: seq<real>, a: nat, b: nat, j: nat)
    requires a > 0 && b > 0
    requires j < |Stride(Stride(s, a), b)| && j < |Stride(s, a * b)|
    ensures Stride(Stride(s, a), b)[j] == Stride(s, a * b)[j]
  {
    var once := Stride(s, a);
    StrideAt(once, b, j);
    var k := j * b;
    StrideAt(s, a, k);
    StrideAt(s, a * b, j);
    MulAssoc(j, b, a);
  }

  lemma {:induction false} StrideComposeLength(s: seq<real>, a: nat, b: nat)
    requires a > 0 && b > 0
    ensures |Stride(Stride(s, a), b)| == |Stride(s, a * b)|
  {
    var once := Stride(s, a);
    var l1, l2, l3 := |once|, |Stride(once, b)|, |Stride(s, a * b)|;
    StrideLength(s, a);
    StrideLength(once, b);
    StrideLength(s, a * b);
    if |s| > 0 {
      CeilComposeUnique(|s|, a, b, l1, l2, l3);
    }
  }

  lemma {:induction false} CeilComposeUnique(n: nat, a: nat, b: nat, l1: nat, l2: nat, l3: nat)
    requires n > 0 && a > 0 && b > 0
    requires (l1 - 1) * a < n <= l1 * a
    requires (l2 - 1) * b < l1 <= l2 * b
    requires (l3 - 1) * (a * b) < n <= l3 * (a * b)
    ensures l2 == l3
  {
    CeilCompose(n, a, b, l1, l2);
    CeilUnique(n, a * b, l2, l3);
  }

  lemma {:induction false} MulAssoc(x: int, y: int, z: int)
    ensures x * y * z == x * (z * y)
  {
  }

  /** `ceil(ceil(n / a) / b) == ceil(n / (a * b))`, with each ceiling given by
      the two inequalities that define it. */
  lemma {:induction false} CeilCompose(n: nat, a: nat, b: nat, l1: nat, l2: nat)
    requires n > 0 && a > 0 && b > 0
    requires (l1 - 1) * a < n <= l1 * a
    requires (l2 - 1) * b < l1 <= l2 * b
    ensures (l2 - 1) * (a * b) < n <= l2 * (a * b)
  {
    MulMono(l1, l2 * b, a);
    assert l2 * b * a == l2 * (a * b);
    MulMono((l2 - 1) * b, l1 - 1, a);
    assert (l2 - 1) * b * a == (l2 - 1) * (a * b);
    assert (l1 - 1) * a < n;
  }

  /** The ceiling is unique. */
  lemma {:induction false} CeilUnique(n: nat, d: nat, x: nat, y: nat)
    requires d > 0
    requires (x - 1) * d < n <= x * d
    requires (y - 1) * d < n <= y * d
    ensures x == y
  {
    if x < y {
      MulMono(x, y - 1, d);
    } else if y < x {
      MulMono(y, x - 1, d);
    }
  }

  lemma {:induction false} MulMono(x: int, y: int, k: nat)
    requires x <= y
    ensures x * k <= y * k
  {
  }

  // ---------------------------------------------------------------------
  // Reversal

  /** `x[::-1]` has the length of `x`, and its sample `k` is sample `|x|-1-k`. */
  lemma {:induction false} ReverseAt(s: seq<real>, k: nat)
    requires k < |s|
    ensures |Reverse(s)| == |s| && Reverse(s)[k] == s[|s| - 1 - k]
  {
    ReverseLength(s);
    if k > 0 {
      ReverseAt(s[..|s| - 1], k - 1);
    }
  }

  lemma {:induction false} ReverseLength(s: seq<real>)
    ensures |Reverse(s)| == |s|
  {
    if |s| > 0 {
      ReverseLength(s[..|s| - 1]);
    }
  }
}
