/** Tempo estimation: autocorrelation by zero-padded transform, and the lag search over it. */
module Bpm {
  import opened ComplexNumbers
  import opened Dft
  import opened RealArithmetic

  // ---------- The autocorrelation ----------

  function NextPowerOfTwo(n: nat): (p: nat)
    ensures IsPow2(p) && p >= n
    ensures n >= 1 ==> p < 2 * n
  {
    if n <= 1 then 1 else 2 * NextPowerOfTwo((n + 1) / 2)
  }

  /** The linear correlation of the first m products at a lag: the sum of e[i] * e[i + lag] for i < m. */
  function Lagged(e: seq<real>, lag: nat, m: nat): real
    requires m == 0 || m + lag <= |e|
  {
    if m == 0 then 0.0 else Lagged(e, lag, m - 1) + Times(e[m - 1], e[m - 1 + lag])
  }

  function Autocorrelation(e: seq<real>, lag: nat): real
    requires lag <= |e|
  {
    Lagged(e, lag, |e| - lag)
  }

  function Padded(e: seq<real>, n: nat): (x: seq<Complex>)
    requires |e| <= n
    ensures |x| == n
  {
    seq(n, i requires 0 <= i < n => if i < |e| then Real(e[i]) else ZERO)
  }

  lemma RealProduct(a: real, b: real)
    ensures Mul(Real(a), Real(b)) == Real(Times(a, b))
    ensures Conj(Real(a)) == Real(a)
  {}

  lemma PaddedTerm(e: seq<real>, n: nat, lag: nat, j: nat)
    requires lag <= |e| <= n && j < n
    ensures LagTerm(Padded(e, n), lag)(j) == if j < |e| - lag then Real(Times(e[j], e[j + lag])) else ZERO
  {
    hide Mul, Times;
    var x := Padded(e, n);
    LagTermAt(x, lag, j);
    if j < |e| - lag {
      RealProduct(e[j], e[j + lag]);
    } else {
      MulUnits(Conj(x[j]));
      MulUnits(At(x, lag + j));
    }
  }

  lemma {:induction false} PaddedSum(e: seq<real>, n: nat, lag: nat, k: nat)
    requires lag <= |e| <= n && k <= n
    ensures Sum(k, LagTerm(Padded(e, n), lag)) == Real(Lagged(e, lag, if k <= |e| - lag then k else |e| - lag))
  {
    hide LagTerm, Padded, Times;
    if k > 0 {
      PaddedSum(e, n, lag, k - 1);
      PaddedTerm(e, n, lag, k - 1);
    }
  }

  /** Padding to at least twice the length keeps the circular correlation from wrapping. */
  lemma PaddedCorrelation(w: nat -> Complex, e: seq<real>, n: nat, lag: nat)
    requires IsRootTable(w) && IsPow2(n) && 2 * |e| <= n && lag < |e|
    ensures |PowerSpectrum(Transform(w, Padded(e, n)))| == n
    ensures InverseBin(w, PowerSpectrum(Transform(w, Padded(e, n))), lag).re ==
            Times(n as real, Autocorrelation(e, lag))
  {
    hide InverseBin, Mul, Bin, IsPow2, IsRootTable, LagTerm, Times;
    Correlation(w, Padded(e, n), lag);
    PaddedSum(e, n, lag, n);
    RealProduct(n as real, Autocorrelation(e, lag));
  }

  /** rustfft's forward transform: the unnormalised discrete Fourier transform, in place. */
  method ProcessForward(buffer: array<Complex>, w: nat -> Complex)
    modifies buffer
    ensures buffer[..] == Transform(w, old(buffer[..]))
  {
    var y := Transform(w, buffer[..]);
    forall i | 0 <= i < buffer.Length { buffer[i] := y[i]; }
  }

  /** The unnormalised inverse transform. */
  function InverseSums(w: nat -> Complex, y: seq<Complex>): seq<Complex> {
    seq(|y|, i => InverseBin(w, y, i))
  }

  /** rustfft's inverse transform: the unnormalised inverse sum, in place. */
  method ProcessInverse(buffer: array<Complex>, w: nat -> Complex)
    modifies buffer
    ensures buffer[..] == InverseSums(w, old(buffer[..]))
  {
    hide InverseBin;
    var y := InverseSums(w, buffer[..]);
    forall i | 0 <= i < buffer.Length { buffer[i] := y[i]; }
  }

  method SquareMagnitudes(buffer: array<Complex>)
    modifies buffer
    ensures buffer[..] == PowerSpectrum(old(buffer[..]))
  {
    hide Mul, Conj;
    for i := 0 to buffer.Length
      invariant forall k :: 0 <= k < i ==> buffer[k] == Mul(old(buffer[k]), Conj(old(buffer[k])))
      invariant forall k :: i <= k < buffer.Length ==> buffer[k] == old(buffer[k])
    {
      buffer[i] := Mul(buffer[i], Conj(buffer[i]));
    }
  }

  method PaddedBuffer(envelope: seq<real>, fftLen: nat) returns (buffer: array<Complex>)
    requires |envelope| <= fftLen
    ensures fresh(buffer) && buffer[..] == Padded(envelope, fftLen)
  {
    buffer := new Complex[fftLen](_ => ZERO);
    for i := 0 to |envelope|
      invariant forall k :: 0 <= k < fftLen ==> buffer[k] == if k < i then Real(envelope[k]) else ZERO
    {
      buffer[i] := Complex(envelope[i], buffer[i].im);
    }
  }

  lemma CorrelationAtEveryLag(w: nat -> Complex, e: seq<real>, n: nat, result: seq<Complex>)
    requires IsRootTable(w) && IsPow2(n) && 0 < 2 * |e| <= n
    requires result == InverseSums(w, PowerSpectrum(Transform(w, Padded(e, n))))
    ensures |result| == n &&
            forall lag :: 0 <= lag < |e| ==> result[lag].re == Times(n as real, Autocorrelation(e, lag))
  {
    hide Transform, InverseBin, Times, Autocorrelation, IsPow2, IsRootTable;
    var p := PowerSpectrum(Transform(w, Padded(e, n)));
    PaddedCorrelation(w, e, n, 0);
    forall lag | 0 <= lag < |e| ensures InverseBin(w, p, lag).re == Times(n as real, Autocorrelation(e, lag)) {
      PaddedCorrelation(w, e, n, lag);
    }
  }

  function RealParts(z: seq<Complex>): (r: seq<real>)
    ensures |r| == |z| && forall i :: 0 <= i < |z| ==> r[i] == z[i].re
  {
    seq(|z|, i requires 0 <= i < |z| => z[i].re)
  }

  /** Every returned value is the linear autocorrelation times the transform length. */
  method ComputeAutocorrelationFft(envelope: seq<real>, w: nat -> Complex) returns (ac: seq<real>)
    requires IsRootTable(w)
    ensures |ac| == |envelope|
    ensures forall lag :: 0 <= lag < |ac| ==>
              ac[lag] == Times(NextPowerOfTwo(2 * |envelope|) as real, Autocorrelation(envelope, lag))
  {
    hide *;
    if |envelope| == 0 { return []; }
    var fftLen := NextPowerOfTwo(|envelope| * 2);
    var buffer := PaddedBuffer(envelope, fftLen);
    ProcessForward(buffer, w);
    SquareMagnitudes(buffer);
    ProcessInverse(buffer, w);
    CorrelationAtEveryLag(w, envelope, fftLen, buffer[..]);
    ac := RealParts(buffer[..|envelope|]);
  }

  // ---------- The zero lag dominates ----------

  function Energy(e: seq<real>, from: nat, m: nat): (s: real)
    requires from + m <= |e|
    ensures s >= 0.0
  {
    if m == 0 then 0.0
    else
      TwoProducts(e[from + m - 1], 0.0);
      Energy(e, from, m - 1) + Times(e[from + m - 1], e[from + m - 1])
  }

  lemma {:induction false} EnergySplit(e: seq<real>, from: nat, a: nat, b: nat)
    requires from + a + b <= |e|
    ensures Energy(e, from, a + b) == Energy(e, from, a) + Energy(e, from + a, b)
  {
    if b > 0 { EnergySplit(e, from, a, b - 1); }
  }

  lemma {:induction false} ProductsBelowEnergies(e: seq<real>, lag: nat, m: nat)
    requires m + lag <= |e|
    ensures 2.0 * Lagged(e, lag, m) <= Energy(e, 0, m) + Energy(e, lag, m)
    ensures -2.0 * Lagged(e, lag, m) <= Energy(e, 0, m) + Energy(e, lag, m)
  {
    hide Times;
    if m > 0 {
      ProductsBelowEnergies(e, lag, m - 1);
      TwoProducts(e[m - 1], e[m - 1 + lag]);
    }
  }

  lemma {:induction false} LaggedZeroIsEnergy(e: seq<real>, m: nat)
    requires m <= |e|
    ensures Lagged(e, 0, m) == Energy(e, 0, m)
  {
    if m > 0 { LaggedZeroIsEnergy(e, m - 1); }
  }

  /** No lag correlates more strongly than lag zero, in either sign. */
  lemma ZeroLagDominates(e: seq<real>, lag: nat)
    requires lag <= |e|
    ensures -Autocorrelation(e, 0) <= Autocorrelation(e, lag) <= Autocorrelation(e, 0)
    ensures Autocorrelation(e, 0) >= 0.0
  {
    var m := |e| - lag;
    ProductsBelowEnergies(e, lag, m);
    EnergySplit(e, 0, m, lag);
    EnergySplit(e, 0, lag, m);
    LaggedZeroIsEnergy(e, |e|);
  }

  // ---------- The lag search ----------

  datatype BpmResult = BpmResult(bpm: real, confidence: real, periodicityStrength: real)

  const EMPTY := BpmResult(0.0, 0.0, 0.0)
  const FFT_SIZE: nat := 1024
  const HOP_SIZE: nat := 512
  const EPSILON: real := 1.0 / 8388608.0
  const MIN_BPM: real := 60.0
  const MAX_BPM: real := 200.0

  function Ceil(x: real): (c: int)
    ensures (c - 1) as real < x <= c as real
  {
    -((-x).Floor)
  }

  function FrameRate(sampleRate: nat): real { sampleRate as real / HOP_SIZE as real }

  function LagMin(sampleRate: nat): (lag: nat)
    ensures lag >= 1
  {
    var lag := Ceil(FrameRate(sampleRate) * 60.0 / MAX_BPM);
    if lag > 1 then lag else 1
  }

  function LagMax(sampleRate: nat): nat { (FrameRate(sampleRate) * 60.0 / MIN_BPM).Floor }

  function SearchEnd(sampleRate: nat, n: nat): int
    requires n > 0
  {
    if LagMax(sampleRate) < n - 1 then LagMax(sampleRate) else n - 1
  }

  /** A beat every `lag` hops of 512 samples is a tempo between 60 and 200 beats per minute. */
  predicate IsTempo(sampleRate: nat, lag: nat) {
    lag >= 1 && 60.0 <= 60.0 * (sampleRate as real / 512.0) / lag as real <= 200.0
  }

  /** When an estimate exists at all: some tempo has a lag inside the envelope, which is not silent. */
  ghost predicate Searchable(samples: seq<real>, e: seq<real>, sampleRate: nat) {
    && |samples| >= 1024 && (exists l: nat :: l < |e| && IsTempo(sampleRate, l))
    && Times(NextPowerOfTwo(2 * |e|) as real, Autocorrelation(e, 0)) > 1.0 / 8388608.0
  }

  /** Of all tempos with a lag inside the envelope, `lag` is the last of those that correlate most strongly. */
  ghost predicate BestLag(e: seq<real>, sampleRate: nat, lag: nat) {
    && lag < |e| && IsTempo(sampleRate, lag)
    && (forall l: nat :: l < |e| && IsTempo(sampleRate, l) ==> Autocorrelation(e, l) <= Autocorrelation(e, lag))
    && (forall l: nat :: lag < l < |e| && IsTempo(sampleRate, l) ==> Autocorrelation(e, l) < Autocorrelation(e, lag))
  }

  /** The iterator maximum of the source: among equal values the last lag wins. */
  method StrongestLag(ac: seq<real>, lagMin: nat, searchEnd: nat) returns (best: nat)
    requires lagMin <= searchEnd < |ac|
    ensures lagMin <= best <= searchEnd
    ensures forall l :: lagMin <= l <= searchEnd ==> ac[l] <= ac[best]
    ensures forall l :: best < l <= searchEnd ==> ac[l] < ac[best]
  {
    best := lagMin;
    for lag := lagMin + 1 to searchEnd + 1
      invariant lagMin <= best < lag
      invariant forall l :: lagMin <= l < lag ==> ac[l] <= ac[best]
      invariant forall l :: best < l < lag ==> ac[l] < ac[best]
    {
      if ac[lag] >= ac[best] { best := lag; }
    }
  }

  /** The search range is exactly the lags of the tempos between the two limits. */
  lemma SearchedIffTempo(sampleRate: nat, lag: nat)
    ensures LagMin(sampleRate) <= lag <= LagMax(sampleRate) <==> IsTempo(sampleRate, lag)
  {
    if lag >= 1 {
      var f, l := FrameRate(sampleRate), lag as real;
      assert f == sampleRate as real / 512.0;
      hide FrameRate;
      QuotientBounds(60.0 * f, l, 60.0);
      QuotientBounds(60.0 * f, l, 200.0);
      assert f * 60.0 / 200.0 <= l <==> 60.0 * f <= l * 200.0;
      assert l <= f * 60.0 / 60.0 <==> l * 60.0 <= 60.0 * f;
    }
  }

  /** Cut off at the end of the envelope, it is the lags of these tempos inside the envelope. */
  lemma SearchedInside(sampleRate: nat, n: nat, l: nat)
    requires n > 0
    ensures LagMin(sampleRate) <= l <= SearchEnd(sampleRate, n) <==> l < n && IsTempo(sampleRate, l)
  {
    hide LagMin, LagMax, IsTempo;
    SearchedIffTempo(sampleRate, l);
  }

  ghost predicate ScaledCorrelation(e: seq<real>, ac: seq<real>) {
    && |ac| == |e| > 0
    && forall l :: 0 <= l < |ac| ==> ac[l] == Times(NextPowerOfTwo(2 * |e|) as real, Autocorrelation(e, l))
  }

  lemma SameOrder(e: seq<real>, ac: seq<real>, l: nat, best: nat)
    requires ScaledCorrelation(e, ac) && l < |e| && best < |e|
    ensures ac[l] <= ac[best] <==> Autocorrelation(e, l) <= Autocorrelation(e, best)
    ensures ac[l] < ac[best] <==> Autocorrelation(e, l) < Autocorrelation(e, best)
  {
    hide Autocorrelation, Times;
    ScalingKeepsOrder(NextPowerOfTwo(2 * |e|) as real, Autocorrelation(e, l), Autocorrelation(e, best));
  }

  lemma StrongestIsBest(e: seq<real>, ac: seq<real>, sampleRate: nat, best: nat)
    requires ScaledCorrelation(e, ac)
    requires LagMin(sampleRate) <= best <= SearchEnd(sampleRate, |e|) < |e|
    requires forall l :: LagMin(sampleRate) <= l <= SearchEnd(sampleRate, |e|) ==> ac[l] <= ac[best]
    requires forall l :: best < l <= SearchEnd(sampleRate, |e|) ==> ac[l] < ac[best]
    ensures BestLag(e, sampleRate, best)
  {
    hide Autocorrelation, LagMin, SearchEnd, Times, ScaledCorrelation, IsTempo;
    SearchedInside(sampleRate, |e|, best);
    forall l: nat | l < |e| && IsTempo(sampleRate, l) ensures Autocorrelation(e, l) <= Autocorrelation(e, best) {
      SearchedInside(sampleRate, |e|, l);
      SameOrder(e, ac, l, best);
    }
    forall l: nat | best < l < |e| && IsTempo(sampleRate, l) ensures Autocorrelation(e, l) < Autocorrelation(e, best) {
      SearchedInside(sampleRate, |e|, l);
      SameOrder(e, ac, l, best);
    }
  }

  lemma NoTempo()
    ensures !exists l: nat :: IsTempo(0, l)
  {
  }

  lemma NothingToSearch(sampleRate: nat, n: nat)
    requires n > 0 && LagMin(sampleRate) > SearchEnd(sampleRate, n)
    ensures !exists l: nat :: l < n && IsTempo(sampleRate, l)
  {
    hide LagMin, SearchEnd, IsTempo;
    if l: nat :| l < n && IsTempo(sampleRate, l) { SearchedInside(sampleRate, n, l); }
  }

  lemma StrengthWithinUnit(e: seq<real>, ac: seq<real>, best: nat)
    requires ScaledCorrelation(e, ac) && best < |ac| && ac[0] > EPSILON
    ensures Autocorrelation(e, 0) > 0.0
    ensures ac[best] / ac[0] == Autocorrelation(e, best) / Autocorrelation(e, 0) <= 1.0
    ensures ac[best] / ac[0] > 0.0 <==> Autocorrelation(e, best) > 0.0
  {
    hide Autocorrelation, Times;
    var c, a, b := NextPowerOfTwo(2 * |e|) as real, Autocorrelation(e, best), Autocorrelation(e, 0);
    ZeroLagDominates(e, best);
    ScalingKeepsOrder(c, b, 0.0);
    TimesZero(c);
    ScaledRatio(c, a, b);
    QuotientBounds(a, b, 1.0);
    QuotientBounds(a, b, 0.0);
  }

  /** The tempo of the best lag, with how much of the signal's energy repeats at it as strength and confidence. */
  ghost predicate IsEstimate(e: seq<real>, sampleRate: nat, lag: nat, r: BpmResult) {
    && BestLag(e, sampleRate, lag) && Autocorrelation(e, 0) > 0.0
    && 60.0 <= r.bpm <= 200.0 && r.bpm == 60.0 * (sampleRate as real / 512.0) / lag as real
    && 0.0 <= r.periodicityStrength <= 1.0 && r.confidence == r.periodicityStrength
    && r.periodicityStrength ==
       if Autocorrelation(e, lag) > 0.0 then Autocorrelation(e, lag) / Autocorrelation(e, 0) else 0.0
  }

  lemma Estimated(e: seq<real>, sampleRate: nat, lag: nat, r: BpmResult)
    requires BestLag(e, sampleRate, lag) && Autocorrelation(e, 0) > 0.0
    requires var s := Autocorrelation(e, lag) / Autocorrelation(e, 0);
             && s <= 1.0 && (s > 0.0 <==> Autocorrelation(e, lag) > 0.0)
             && r.periodicityStrength == r.confidence == if s > 0.0 then s else 0.0
    requires r.bpm == 60.0 * FrameRate(sampleRate) / lag as real
    ensures IsEstimate(e, sampleRate, lag, r)
  {
    hide Autocorrelation;
  }

  /**
   The estimate, given the onset envelope of the samples: empty exactly when nothing can be searched,
   otherwise the tempo of the last strongest lag with a strength that the clamp never changes.
   */
  method EstimateBpm(samples: seq<real>, sampleRate: nat, envelopeOf: seq<real> -> seq<real>, w: nat -> Complex)
    returns (r: BpmResult)
    requires IsRootTable(w)
    ensures if Searchable(samples, envelopeOf(samples), sampleRate)
            then exists lag :: IsEstimate(envelopeOf(samples), sampleRate, lag, r)
            else r == BpmResult(0.0, 0.0, 0.0)
  {
    hide IsRootTable, IsPow2, Autocorrelation, NextPowerOfTwo, Times, IsTempo, IsEstimate, FrameRate, LagMin, LagMax;
    if sampleRate == 0 || |samples| < FFT_SIZE {
      NoTempo();
      return EMPTY;
    }
    var e := envelopeOf(samples);
    if |e| == 0 { return EMPTY; }
    var ac := ComputeAutocorrelationFft(e, w);
    var lagMin, lagMax := LagMin(sampleRate), LagMax(sampleRate);
    if lagMin > lagMax {
      NothingToSearch(sampleRate, |e|);
      return EMPTY;
    }
    var searchEnd := SearchEnd(sampleRate, |ac|);
    if lagMin > searchEnd {
      NothingToSearch(sampleRate, |e|);
      return EMPTY;
    }
    var zeroLag := ac[0];
    if zeroLag <= EPSILON { return EMPTY; }
    var best := StrongestLag(ac, lagMin, searchEnd);
    StrongestIsBest(e, ac, sampleRate, best);
    StrengthWithinUnit(e, ac, best);
    var strength := if ac[best] / zeroLag > 0.0 then ac[best] / zeroLag else 0.0;
    var confidence := if strength < 0.0 then 0.0 else if strength > 1.0 then 1.0 else strength;
    r := BpmResult(60.0 * FrameRate(sampleRate) / best as real, confidence, strength);
    assert Searchable(samples, e, sampleRate);
    Estimated(e, sampleRate, best, r);
  }
}
