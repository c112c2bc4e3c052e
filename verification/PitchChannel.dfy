/** One channel of the pitch worklet: sliding input window, vocoder frames, and the overlap-add ring buffer. */
module PitchChannel {
  import opened ComplexNumbers
  import opened Dft
  import opened Fft
  import opened RealArithmetic

  const FFT_SIZE: nat := 512
  const HOP_SIZE: nat := 128
  const HALF: nat := 256
  const RING: nat := 1536

  // ---------- The unbounded overlap-add sum ----------

  function Sample(frame: seq<real>, k: int): real { if 0 <= k < |frame| then frame[k] else 0.0 }

  /** The first sample of frame f: f hops of 128 samples. */
  function FrameStart(f: nat): nat { 128 * f }

  /** Sample t of the sum of all frames, frame f starting at FrameStart(f). */
  function Overlap(frames: seq<seq<real>>, t: int): real {
    if frames == [] then 0.0
    else
      var f := |frames| - 1;
      Overlap(frames[..f], t) + Sample(frames[f], t - FrameStart(f))
  }

  ghost predicate FullFrames(frames: seq<seq<real>>) {
    forall f :: 0 <= f < |frames| ==> |frames[f]| == FFT_SIZE
  }

  lemma {:induction false} OverlapBeyond(frames: seq<seq<real>>, t: int)
    requires FullFrames(frames) && t >= FrameStart(|frames|) + FFT_SIZE - HOP_SIZE
    ensures Overlap(frames, t) == 0.0
  {
    if frames != [] { OverlapBeyond(frames[..|frames| - 1], t); }
  }

  lemma OverlapAppend(frames: seq<seq<real>>, frame: seq<real>, t: int)
    ensures Overlap(frames + [frame], t) == Overlap(frames, t) + Sample(frame, t - FrameStart(|frames|))
  {}

  /** Samples before the start of the next frame are final: no later frame changes them. */
  lemma {:induction false} OverlapFinal(frames: seq<seq<real>>, more: seq<seq<real>>, t: int)
    requires t < FrameStart(|frames|)
    ensures Overlap(frames + more, t) == Overlap(frames, t)
  {
    if more == [] {
      assert frames + more == frames;
    } else {
      var m := |more| - 1;
      OverlapFinal(frames, more[..m], t);
      assert frames + more == (frames + more[..m]) + [more[m]];
      OverlapAppend(frames + more[..m], more[m], t);
    }
  }

  // ---------- The ring as a window onto the sum ----------

  /** Index of the cell d places after the head. */
  function Cell(head: nat, d: nat): (c: nat)
    ensures c < RING
  {
    (head + d) % 1536
  }

  /** Cell d after the read head holds sample consumed + d of the sum, for every cell of the ring. */
  ghost predicate RingHolds(ring: seq<real>, head: nat, consumed: nat, frames: seq<seq<real>>) {
    && |ring| == RING && head < RING && FullFrames(frames)
    && forall d :: 0 <= d < RING ==> ring[Cell(head, d)] == Overlap(frames, consumed + d)
  }

  /** The ring after the first i samples of `frame` were added `available` cells after the head. */
  ghost predicate RingAdding(ring: seq<real>, head: nat, consumed: nat, frames: seq<seq<real>>,
                             frame: seq<real>, available: nat, i: nat) {
    && |ring| == RING && head < RING && FullFrames(frames)
    && forall d :: 0 <= d < RING ==>
         ring[Cell(head, d)] ==
           Overlap(frames, consumed + d) +
             (if available <= d < available + i then Sample(frame, d - available) else 0.0)
  }

  lemma CellsDistinct(head: nat, d: nat, e: nat)
    requires head < RING && d < RING && e < RING && Cell(head, d) == Cell(head, e)
    ensures d == e
  {}

  /** Adding one sample touches its own cell only, because the frame ends before the ring wraps onto the head. */
  lemma AddStep(ring: seq<real>, head: nat, consumed: nat, frames: seq<seq<real>>,
                frame: seq<real>, available: nat, i: nat)
    requires RingAdding(ring, head, consumed, frames, frame, available, i)
    requires |frame| == FFT_SIZE && i < FFT_SIZE && available + FFT_SIZE <= RING
    ensures var idx := (head + available + i) % RING;
            RingAdding(ring[idx := ring[idx] + frame[i]], head, consumed, frames, frame, available, i + 1)
  {
    var idx := (head + available + i) % RING;
    assert idx == Cell(head, available + i);
    hide Overlap;
    var now := ring[idx := ring[idx] + frame[i]];
    forall d | 0 <= d < RING
      ensures now[Cell(head, d)] ==
              Overlap(frames, consumed + d) +
                (if available <= d < available + (i + 1) then Sample(frame, d - available) else 0.0)
    {
      if Cell(head, d) == idx { CellsDistinct(head, d, available + i); }
    }
  }

  lemma AddStart(ring: seq<real>, head: nat, consumed: nat, frames: seq<seq<real>>, frame: seq<real>, available: nat)
    requires RingHolds(ring, head, consumed, frames)
    ensures RingAdding(ring, head, consumed, frames, frame, available, 0)
  {}

  lemma AddDone(ring: seq<real>, head: nat, consumed: nat, frames: seq<seq<real>>, frame: seq<real>, available: nat)
    requires RingAdding(ring, head, consumed, frames, frame, available, FFT_SIZE)
    requires |frame| == FFT_SIZE && consumed + available == FrameStart(|frames|)
    ensures RingHolds(ring, head, consumed, frames + [frame])
  {}

  function Next(head: nat): nat { (head + 1) % 1536 }

  lemma NextCell(head: nat, d: nat)
    requires head < RING && d < RING
    ensures Cell(head, 0) == head
    ensures Next(head) < RING && Cell(Next(head), d) == if d == RING - 1 then head else Cell(head, d + 1)
    ensures d < RING - 1 ==> Cell(head, d + 1) != head
  {}

  lemma DrainCell(ring: seq<real>, head: nat, consumed: nat, frames: seq<seq<real>>, d: nat)
    requires RingHolds(ring, head, consumed, frames) && d < RING
    requires consumed + RING >= FrameStart(|frames|) + FFT_SIZE - HOP_SIZE
    ensures ring[head := 0.0][Cell(Next(head), d)] == Overlap(frames, consumed + 1 + d)
  {
    hide Overlap, Cell, Next, FrameStart;
    NextCell(head, d);
    if d == RING - 1 {
      OverlapBeyond(frames, consumed + RING);
    } else {
      assert ring[Cell(head, d + 1)] == Overlap(frames, consumed + (d + 1));
    }
  }

  /** Reading and clearing the head cell moves the window by one sample. */
  lemma DrainStep(ring: seq<real>, head: nat, consumed: nat, frames: seq<seq<real>>)
    requires RingHolds(ring, head, consumed, frames)
    requires consumed + RING >= FrameStart(|frames|) + FFT_SIZE - HOP_SIZE
    ensures ring[head] == Overlap(frames, consumed)
    ensures RingHolds(ring[head := 0.0], Next(head), consumed + 1, frames)
  {
    hide Overlap, Cell, Next, FrameStart;
    NextCell(head, 0);
    assert ring[Cell(head, 0)] == Overlap(frames, consumed + 0);
    forall d | 0 <= d < RING ensures ring[head := 0.0][Cell(Next(head), d)] == Overlap(frames, consumed + 1 + d) {
      DrainCell(ring, head, consumed, frames, d);
    }
  }

  lemma EmptyRing(ring: seq<real>)
    requires |ring| == RING && forall d :: 0 <= d < RING ==> ring[d] == 0.0
    ensures RingHolds(ring, 0, 0, [])
  {}

  // ---------- One frame ----------

  function Zeros(n: nat): (z: seq<real>)
    ensures |z| == n
  {
    seq(n, _ => 0.0)
  }

  function Windowed(win: seq<real>, input: seq<real>): seq<Complex>
    requires |win| == |input|
  {
    seq(|input|, i requires 0 <= i < |input| => Complex(Times(input[i], win[i]), 0.0))
  }

  /** The full spectrum mirrored from the bins 0..HALF. */
  function Mirrored(low: seq<Complex>): (y: seq<Complex>)
    ensures |y| == FFT_SIZE
  {
    seq(FFT_SIZE, k =>
      if k == 0 || k == HALF then Complex(At(low, k).re, 0.0)
      else if k < HALF then At(low, k)
      else Conj(At(low, FFT_SIZE - k)))
  }

  /** A frame: the real part of the inverse of the mirrored bins, scaled by 2/3. */
  function Frame(w: nat -> Complex, low: seq<Complex>): (frame: seq<real>)
    ensures |frame| == FFT_SIZE
  {
    var z := Inverse(w, Mirrored(low));
    seq(FFT_SIZE, i requires 0 <= i < FFT_SIZE => Times(z[i].re, 2.0 / 3.0))
  }

  lemma FftSizeIsPowerOfTwo()
    ensures IsPow2(FFT_SIZE)
  {}

  /** The frame drops nothing: the synthesised signal has no imaginary part. */
  lemma FrameIsWholeSignal(w: nat -> Complex, low: seq<Complex>, i: int)
    requires IsRootTable(w) && 0 <= i < FFT_SIZE
    ensures Inverse(w, Mirrored(low))[i].im == 0.0
  {
    hide IsPow2, IsRootTable, Inverse;
    FftSizeIsPowerOfTwo();
    MirroredInverseIsReal(w, Mirrored(low));
  }

  /** The spectrum of the windowed input: its inverse transform is every sample times its window value. */
  ghost predicate IsSpectrum(w: nat -> Complex, win: seq<real>, input: seq<real>, y: seq<Complex>) {
    && |y| == |win| == |input| == FFT_SIZE
    && forall i :: 0 <= i < FFT_SIZE ==> Inverse(w, y)[i] == Complex(Times(input[i], win[i]), 0.0)
  }

  /** What the analysis leaves is the spectrum of the windowed input, and there is no other. */
  lemma AnalysisIsSpectrum(w: nat -> Complex, win: seq<real>, input: seq<real>, y: seq<Complex>)
    requires IsRootTable(w) && |win| == |input| == FFT_SIZE
    ensures IsSpectrum(w, win, input, y) <==> y == Transform(w, Windowed(win, input))
  {
    hide IsPow2, IsRootTable, Inverse, Transform, Times;
    FftSizeIsPowerOfTwo();
    var x := Windowed(win, input);
    InverseUndoesTransform(w, x);
    if IsSpectrum(w, win, input, y) {
      TransformUndoesInverse(w, y);
      TransformLength(w, Inverse(w, y));
      assert Inverse(w, y) == x;
    }
  }

  /** The synthesis bins keep the spectrum up to HALF, which is all that is read of them. */
  ghost predicate KeepsBins(low: seq<Complex>, y: seq<Complex>) {
    forall k :: 0 <= k <= HALF ==> At(low, k) == At(y, k)
  }

  lemma MirroredKeepsSymmetric(low: seq<Complex>, y: seq<Complex>)
    requires |y| == FFT_SIZE && ConjugateSymmetric(y) && KeepsBins(low, y)
    ensures Mirrored(low) == y
  {
    forall k | 0 <= k < FFT_SIZE ensures Mirrored(low)[k] == y[k] {
      assert y[if k == 0 then 0 else |y| - k] == Conj(y[k]);
      assert At(low, k) == At(y, k) || k > HALF;
      if k > HALF { assert At(low, FFT_SIZE - k) == At(y, FFT_SIZE - k); }
    }
  }

  /** Sample by sample the windowed input, times 2/3. */
  ghost predicate IsWindowed(frame: seq<real>, win: seq<real>, input: seq<real>) {
    && |frame| == |win| == |input| == FFT_SIZE
    && forall i :: 0 <= i < FFT_SIZE ==> frame[i] == Times(Times(input[i], win[i]), 2.0 / 3.0)
  }

  /** A vocoder that changes no bin gives back the windowed input. */
  lemma UnchangedFrame(w: nat -> Complex, win: seq<real>, input: seq<real>, y: seq<Complex>, low: seq<Complex>)
    requires IsRootTable(w) && IsSpectrum(w, win, input, y) && KeepsBins(low, y)
    ensures IsWindowed(Frame(w, low), win, input)
  {
    hide IsPow2, IsRootTable, Inverse, Transform, Times, KeepsBins, Mirrored;
    FftSizeIsPowerOfTwo();
    AnalysisIsSpectrum(w, win, input, y);
    RealSpectrumIsSymmetric(w, Windowed(win, input));
    MirroredKeepsSymmetric(low, y);
  }

  /** The spectrum of the frame is 2/3 of the synthesis bins, of which bins 0 and HALF lose their imaginary part. */
  ghost predicate HasBins(w: nat -> Complex, frame: seq<real>, low: seq<Complex>) {
    && |frame| == FFT_SIZE
    && forall k :: 0 <= k <= HALF ==>
         At(Transform(w, Pack(frame, Zeros(FFT_SIZE))), k) ==
         Scale(2.0 / 3.0, if 0 < k < HALF then At(low, k) else Real(At(low, k).re))
  }

  lemma FrameSamples(w: nat -> Complex, low: seq<Complex>)
    ensures |Inverse(w, Mirrored(low))| == |Frame(w, low)| == FFT_SIZE
    ensures forall i :: 0 <= i < FFT_SIZE ==> Frame(w, low)[i] == Times(Inverse(w, Mirrored(low))[i].re, 2.0 / 3.0)
  {
    hide InverseBin, Times;
  }

  lemma MirroredBins(low: seq<Complex>)
    ensures forall k :: 0 <= k <= HALF ==>
              Mirrored(low)[k] == if 0 < k < HALF then At(low, k) else Real(At(low, k).re)
  {}

  lemma FrameHasBins(w: nat -> Complex, low: seq<Complex>)
    requires IsRootTable(w)
    ensures HasBins(w, Frame(w, low), low)
  {
    hide IsPow2, IsRootTable, Inverse, Transform, Mirrored;
    FftSizeIsPowerOfTwo();
    var y, frame := Mirrored(low), Frame(w, low);
    var z := Inverse(w, y);
    FrameSamples(w, low);
    MirroredBins(low);
    TransformUndoesInverse(w, y);
    TransformLength(w, z);
    forall i | 0 <= i < FFT_SIZE ensures Scaled(2.0 / 3.0, z)[i] == Pack(frame, Zeros(FFT_SIZE))[i] {
      FrameIsWholeSignal(w, low, i);
    }
    assert Scaled(2.0 / 3.0, z) == Pack(frame, Zeros(FFT_SIZE));
    TransformLength(w, Scaled(2.0 / 3.0, z));
    forall k | 0 <= k <= HALF
      ensures At(Transform(w, Pack(frame, Zeros(FFT_SIZE))), k) ==
              Scale(2.0 / 3.0, if 0 < k < HALF then At(low, k) else Real(At(low, k).re))
    {
      TransformScaled(w, 2.0 / 3.0, z, k);
    }
  }

  type Vocoder<!P> = (P, seq<Complex>) -> (P, seq<Complex>)

  /** The synthesis bins and the next phase state for one window of input. */
  function Synthesis<P>(w: nat -> Complex, win: seq<real>, vocoder: Vocoder<P>, phase: P, input: seq<real>)
    : (P, seq<Complex>)
    requires |win| == |input| == FFT_SIZE
  {
    vocoder(phase, Transform(w, Windowed(win, input)))
  }

  /** n frames over the same window of input, threading the phase state. */
  function Frames<P>(w: nat -> Complex, win: seq<real>, vocoder: Vocoder<P>, phase: P, input: seq<real>, n: nat):
    (r: (P, seq<seq<real>>))
    requires |win| == |input| == FFT_SIZE
    ensures |r.1| == n
  {
    if n == 0 then (phase, [])
    else
      var before := Frames(w, win, vocoder, phase, input, n - 1);
      var s := Synthesis(w, win, vocoder, before.0, input);
      (s.0, before.1 + [Frame(w, s.1)])
  }

  /** Frame k is made of the bins the vocoder gives for the spectrum in the phase state left by the k frames before. */
  lemma {:induction false} FrameByFrame<P>(w: nat -> Complex, win: seq<real>, vocoder: Vocoder<P>, phase: P,
                                           input: seq<real>, y: seq<Complex>, n: nat, k: nat)
    requires IsRootTable(w) && IsSpectrum(w, win, input, y) && k < n
    ensures var before := Frames(w, win, vocoder, phase, input, k).0;
            && Frames(w, win, vocoder, phase, input, k + 1).0 == vocoder(before, y).0
            && HasBins(w, Frames(w, win, vocoder, phase, input, n).1[k], vocoder(before, y).1)
    decreases n
  {
    hide IsRootTable, IsPow2, Frame, HasBins, Transform;
    AnalysisIsSpectrum(w, win, input, y);
    if k < n - 1 {
      FrameByFrame(w, win, vocoder, phase, input, y, n - 1, k);
    } else {
      FrameHasBins(w, vocoder(Frames(w, win, vocoder, phase, input, k).0, y).1);
    }
  }

  // ---------- The channel ----------

  /** The last FFT_SIZE samples of the input, zero before its start. */
  function LastSamples(history: seq<real>): (s: seq<real>)
    ensures |s| == FFT_SIZE
  {
    (Zeros(FFT_SIZE) + history)[|history|..]
  }

  datatype Run<P> = Run(phase: P, history: seq<real>, frames: seq<seq<real>>, silent: nat)

  /**
   One block: it joins the input, and every hop completed since the last frame adds one over the new window. Silence
   is inserted only as far as the samples that wait for their hop exceed all that has been inserted before.
   */
  function Fed<P>(w: nat -> Complex, win: seq<real>, vocoder: Vocoder<P>, r: Run<P>, block: seq<real>): Run<P>
    requires |win| == FFT_SIZE && |r.history| >= FrameStart(|r.frames|)
  {
    var history := r.history + block;
    var waiting := |history| - FrameStart(|r.frames|);
    var f := Frames(w, win, vocoder, r.phase, LastSamples(history), waiting / HOP_SIZE);
    Run(f.0, history, r.frames + f.1, if waiting % HOP_SIZE > r.silent then waiting % HOP_SIZE else r.silent)
  }

  lemma FedIs<P>(w: nat -> Complex, win: seq<real>, vocoder: Vocoder<P>, r: Run<P>, block: seq<real>, waiting: nat)
    requires |win| == FFT_SIZE && |r.history| + |block| == FrameStart(|r.frames|) + waiting
    requires |r.history| >= FrameStart(|r.frames|)
    ensures var f := Frames(w, win, vocoder, r.phase, LastSamples(r.history + block), waiting / HOP_SIZE);
            Fed(w, win, vocoder, r, block) ==
            Run(f.0, r.history + block, r.frames + f.1,
                if waiting % HOP_SIZE > r.silent then waiting % HOP_SIZE else r.silent)
  {
    hide Frames, LastSamples;
  }

  lemma SlideWindow(history: seq<real>, block: seq<real>)
    requires |block| <= FFT_SIZE
    ensures LastSamples(history + block) == LastSamples(history)[|block|..] + block
  {}

  lemma RingLength(ring: seq<real>, head: nat, consumed: nat, frames: seq<seq<real>>)
    requires RingHolds(ring, head, consumed, frames)
    ensures |ring| == RING && head < RING
  {}

  class Channel<P> {
    const inBuffer: array<real>
    const outBuffer: array<real>
    const re: array<real>
    const im: array<real>
    var phase: P
    var hopCounter: nat
    var outReadPos: nat
    var outAvailable: nat
    var wasPassthrough: bool

    /** Since the last reset: the input, the frames, the drained samples, and the number of inserted zeros. */
    ghost var history: seq<real>
    ghost var frames: seq<seq<real>>
    ghost var played: seq<real>
    ghost var silent: nat

    ghost predicate Shape()
      reads this
    {
      && inBuffer.Length == re.Length == im.Length == FFT_SIZE && outBuffer.Length == RING
      && inBuffer != outBuffer && inBuffer != re && inBuffer != im
      && outBuffer != re && outBuffer != im && re != im
    }

    ghost function Current(): Run<P>
      reads this
    {
      Run(phase, history, frames, silent)
    }

    /** The ring holds the unplayed part of the overlap-add sum, and everything played was that sum. */
    ghost predicate Stream()
      reads this, outBuffer
    {
      && RingHolds(outBuffer[..], outReadPos, |played|, frames)
      && |played| + outAvailable == FrameStart(|frames|)
      && forall t :: 0 <= t < |played| ==> played[t] == Overlap(frames, t)
    }

    ghost predicate Valid()
      reads this, inBuffer, outBuffer
    {
      && Shape() && Stream()
      && inBuffer[..] == LastSamples(history)
      && |history| == FrameStart(|frames|) + hopCounter
      && |history| == |played| + silent
      && hopCounter < HOP_SIZE && silent < HOP_SIZE
    }

    constructor (initial: P)
      ensures Valid() && fresh(inBuffer) && fresh(outBuffer) && fresh(re) && fresh(im)
      ensures history == [] && frames == [] && played == [] && silent == 0 && phase == initial && wasPassthrough
    {
      inBuffer := new real[FFT_SIZE](_ => 0.0);
      outBuffer := new real[RING](_ => 0.0);
      re := new real[FFT_SIZE];
      im := new real[FFT_SIZE];
      phase, hopCounter, outReadPos, outAvailable, wasPassthrough := initial, 0, 0, 0, true;
      history, frames, played, silent := [], [], [], 0;
      new;
      EmptyRing(outBuffer[..]);
      assert inBuffer[..] == LastSamples([]);
    }

    /** The windowed input and a zero imaginary part, ready for the transform. */
    method Analyse(win: seq<real>)
      requires Shape() && |win| == FFT_SIZE
      modifies re, im
      ensures Pack(re[..], im[..]) == Windowed(win, inBuffer[..])
    {
      hide Times;
      for i := 0 to FFT_SIZE
        invariant forall k :: 0 <= k < i ==> re[k] == Times(inBuffer[k], win[k]) && im[k] == 0.0
      {
        re[i] := Times(inBuffer[i], win[i]);
        im[i] := 0.0;
      }
    }

    /** The synthesis bins 0..HALF, mirrored to the upper half. */
    method FillSpectrum(low: seq<Complex>)
      requires Shape()
      modifies re, im
      ensures Pack(re[..], im[..]) == Mirrored(low)
    {
      for k := 0 to HALF + 1
        invariant forall t :: 0 <= t < k ==> re[t] == At(low, t).re && im[t] == At(low, t).im
      {
        re[k] := At(low, k).re;
        im[k] := At(low, k).im;
      }
      Mirror(re, im, HALF);
      ghost var z := Pack(re[..], im[..]);
      forall k | 0 <= k < FFT_SIZE ensures z[k] == Mirrored(low)[k] {
        if k > HALF {
          assert z[|z| - (FFT_SIZE - k)] == Conj(z[FFT_SIZE - k]);
        }
      }
    }

    /** One frame: analysis, the vocoder, synthesis, and the overlap-add into the ring. */
    method ProcessFrame(w: nat -> Complex, win: seq<real>, vocoder: Vocoder<P>)
      requires Shape() && Stream() && outAvailable + FFT_SIZE <= RING
      requires IsRootTable(w) && |win| == FFT_SIZE
      modifies this`phase, this`outAvailable, this`frames, re, im, outBuffer
      ensures Shape() && Stream()
      ensures var s := Synthesis(w, win, vocoder, old(phase), inBuffer[..]);
              phase == s.0 && frames == old(frames) + [Frame(w, s.1)]
      ensures exists y :: IsSpectrum(w, win, inBuffer[..], y) && phase == vocoder(old(phase), y).0 &&
                          HasBins(w, frames[|frames| - 1], vocoder(old(phase), y).1) &&
                          (KeepsBins(vocoder(old(phase), y).1, y) ==>
                             IsWindowed(frames[|frames| - 1], win, inBuffer[..]))
      ensures outAvailable == old(outAvailable) + HOP_SIZE
    {
      hide IsRootTable, IsPow2, Transform, Inverse, Overlap, RingHolds, Windowed, Mirrored, IsSpectrum, HasBins,
           KeepsBins, IsWindowed, Frame;
      FftSizeIsPowerOfTwo();
      Analyse(win);
      Fft.Fft(re, im, w);
      ghost var y := Pack(re[..], im[..]);
      AnalysisIsSpectrum(w, win, inBuffer[..], y);
      var (next, low) := vocoder(phase, Pack(re[..], im[..]));
      phase := next;
      FillSpectrum(low);
      Ifft(re, im, w);
      ghost var frame := Frame(w, low);
      FrameHasBins(w, low);
      if KeepsBins(low, y) { UnchangedFrame(w, win, inBuffer[..], y, low); }
      FrameSamples(w, low);
      OverlapAdd(frame);
      forall t | 0 <= t < |played| ensures played[t] == Overlap(frames + [frame], t) {
        OverlapFinal(frames, [frame], t);
      }
      frames := frames + [frame];
      outAvailable := outAvailable + HOP_SIZE;
    }

    method OverlapAdd(ghost frame: seq<real>)
      requires Shape() && Stream() && outAvailable + FFT_SIZE <= RING && |frame| == FFT_SIZE
      requires forall i :: 0 <= i < FFT_SIZE ==> frame[i] == Times(re[i], 2.0 / 3.0)
      modifies outBuffer
      ensures RingHolds(outBuffer[..], outReadPos, |played|, frames + [frame])
    {
      hide Overlap, RingHolds, RingAdding, Times, FrameStart;
      AddStart(outBuffer[..], outReadPos, |played|, frames, frame, outAvailable);
      for i := 0 to FFT_SIZE
        invariant RingAdding(outBuffer[..], outReadPos, |played|, frames, frame, outAvailable, i)
      {
        AddStep(outBuffer[..], outReadPos, |played|, frames, frame, outAvailable, i);
        ghost var before := outBuffer[..];
        var idx := (outReadPos + outAvailable + i) % outBuffer.Length;
        outBuffer[idx] := outBuffer[idx] + Times(re[i], 2.0 / 3.0);
        assert outBuffer[..] == before[idx := before[idx] + frame[i]];
      }
      AddDone(outBuffer[..], outReadPos, |played|, frames, frame, outAvailable);
    }

    /** Slides the window left by the block and appends the block. */
    method Slide(block: seq<real>)
      requires Shape() && 1 <= |block| <= FFT_SIZE && inBuffer[..] == LastSamples(history)
      modifies inBuffer, this`history
      ensures history == old(history) + block
      ensures inBuffer[..] == LastSamples(history)
    {
      var slide := FFT_SIZE - |block|;
      SlideWindow(history, block);
      ghost var was := inBuffer[..];
      forall i | 0 <= i < slide { inBuffer[i] := inBuffer[i + |block|]; }
      for i := 0 to |block|
        invariant history == old(history)
        invariant inBuffer[..slide] == was[|block|..]
        invariant inBuffer[slide..slide + i] == block[..i]
      {
        inBuffer[slide + i] := block[i];
        assert inBuffer[slide..slide + (i + 1)] == inBuffer[slide..slide + i] + [block[i]];
      }
      assert block[..|block|] == block;
      assert inBuffer[..] == inBuffer[..slide] + inBuffer[slide..slide + |block|];
      history := history + block;
    }

    /** Reads one sample: the next one of the sum, or a zero when no frame has produced it yet. */
    method DrainOne() returns (x: real)
      requires Shape() && Stream() && outAvailable <= 1024
      modifies this`outReadPos, this`outAvailable, this`played, this`silent, outBuffer
      ensures Shape() && Stream()
      ensures if old(outAvailable) > 0
              then outAvailable == old(outAvailable) - 1 && silent == old(silent) && played == old(played) + [x]
              else outAvailable == 0 && silent == old(silent) + 1 && played == old(played) && x == 0.0
    {
      hide Overlap, RingHolds;
      if outAvailable > 0 {
        DrainStep(outBuffer[..], outReadPos, |played|, frames);
        RingLength(outBuffer[..], outReadPos, |played|, frames);
        ghost var before := outBuffer[..];
        x := outBuffer[outReadPos];
        outBuffer[outReadPos] := 0.0;
        assert outBuffer[..] == before[outReadPos := 0.0];
        outReadPos := Next(outReadPos);
        outAvailable := outAvailable - 1;
        played := played + [x];
      } else {
        x := 0.0;
        silent := silent + 1;
      }
    }

    /**
     One render block. The block joins the input window, every completed hop adds one frame over that window,
     and the output is the next part of the overlap-add sum, ending in zeros where the sum is not available yet.
     */
    method ProcessBlock(block: seq<real>, dst: array<real>, w: nat -> Complex, win: seq<real>, vocoder: Vocoder<P>)
      requires Valid() && 1 <= |block| <= FFT_SIZE && dst.Length == |block|
      requires dst != inBuffer && dst != outBuffer && dst != re && dst != im
      requires IsRootTable(w) && |win| == FFT_SIZE
      modifies this, inBuffer, outBuffer, re, im, dst
      ensures Valid()
      ensures !wasPassthrough && history == old(history) + block
      ensures Current() == Fed(w, win, vocoder, old(Current()), block)
      ensures old(played) <= played && old(silent) <= silent
      ensures dst[..] == played[|old(played)|..] + Zeros(silent - old(silent))
    {
      hide IsRootTable, RingHolds, Overlap, Frames, LastSamples, Fed;
      wasPassthrough := false;
      Slide(block);
      hopCounter := hopCounter + |block|;
      ghost var waiting := hopCounter;
      RunFrames(w, win, vocoder);
      DrainBlock(dst);
      FedIs(w, win, vocoder, old(Current()), block, waiting);
    }

    /** One frame for every completed hop. */
    method RunFrames(w: nat -> Complex, win: seq<real>, vocoder: Vocoder<P>)
      requires Shape() && Stream() && outAvailable + hopCounter < HOP_SIZE + FFT_SIZE
      requires IsRootTable(w) && |win| == FFT_SIZE
      modifies this`phase, this`outAvailable, this`frames, this`hopCounter, re, im, outBuffer
      ensures Shape() && Stream() && hopCounter == old(hopCounter) % HOP_SIZE
      ensures outAvailable + hopCounter == old(outAvailable + hopCounter)
      ensures FrameStart(|frames|) + hopCounter == FrameStart(|old(frames)|) + old(hopCounter)
      ensures var r := Frames(w, win, vocoder, old(phase), inBuffer[..], old(hopCounter) / HOP_SIZE);
              phase == r.0 && frames == old(frames) + r.1
    {
      hide IsRootTable, RingHolds, Overlap, Synthesis, Frame, IsSpectrum, HasBins, KeepsBins, IsWindowed;
      ghost var hops := 0;
      while hopCounter >= HOP_SIZE
        invariant Shape() && Stream()
        invariant hopCounter == old(hopCounter) - HOP_SIZE * hops
        invariant outAvailable + hopCounter == old(outAvailable + hopCounter)
        invariant |frames| == |old(frames)| + hops
        invariant phase == Frames(w, win, vocoder, old(phase), inBuffer[..], hops).0
        invariant frames == old(frames) + Frames(w, win, vocoder, old(phase), inBuffer[..], hops).1
        decreases hopCounter
      {
        hopCounter := hopCounter - HOP_SIZE;
        ProcessFrame(w, win, vocoder);
        hops := hops + 1;
      }
    }

    method DrainBlock(dst: array<real>)
      requires Shape() && Stream() && outAvailable <= 1024 && dst != outBuffer
      requires outAvailable + hopCounter == silent + dst.Length && silent < HOP_SIZE && hopCounter < HOP_SIZE
      modifies this`outReadPos, this`outAvailable, this`played, this`silent, outBuffer, dst
      ensures Shape() && Stream() && silent < HOP_SIZE
      ensures outAvailable + hopCounter == silent
      ensures silent == if hopCounter > old(silent) then hopCounter else old(silent)
      ensures old(played) <= played
      ensures dst[..] == played[|old(played)|..] + Zeros(silent - old(silent))
    {
      hide RingHolds, Overlap;
      for i := 0 to dst.Length
        invariant Shape() && Stream() && outAvailable <= 1024
        invariant outAvailable + hopCounter == silent + (dst.Length - i)
        invariant old(silent) <= silent && (silent > old(silent) ==> outAvailable == 0)
        invariant old(played) <= played
        invariant dst[..i] == played[|old(played)|..] + Zeros(silent - old(silent))
      {
        ghost var before := dst[..i];
        var x := DrainOne();
        dst[i] := x;
        assert dst[..i + 1] == before + [x];
      }
      assert dst[..] == dst[..dst.Length];
    }

    /** The first passthrough block after use forgets the stream; later ones change nothing. */
    method EnterPassthrough(initial: P)
      requires Valid()
      modifies this, inBuffer, outBuffer
      ensures Valid() && wasPassthrough
      ensures if old(wasPassthrough)
              then history == old(history) && frames == old(frames) && played == old(played) &&
                silent == old(silent) && phase == old(phase)
              else history == [] && frames == [] && played == [] && silent == 0 && phase == initial
    {
      if !wasPassthrough {
        hopCounter, outReadPos, outAvailable := 0, 0, 0;
        forall i | 0 <= i < RING { outBuffer[i] := 0.0; }
        forall i | 0 <= i < FFT_SIZE { inBuffer[i] := 0.0; }
        phase := initial;
        wasPassthrough := true;
        history, frames, played, silent := [], [], [], 0;
        EmptyRing(outBuffer[..]);
        assert inBuffer[..] == LastSamples([]);
      }
    }
  }

  /** Played samples are final: whatever frames follow, they stay the samples of the overlap-add sum. */
  lemma PlayedIsFinal<P>(c: Channel<P>, more: seq<seq<real>>, t: nat)
    requires c.Valid() && t < |c.played|
    ensures c.played[t] == Overlap(c.frames + more, t)
  {
    OverlapFinal(c.frames, more, t);
  }

  /** Past the tail of the newest frame every cell of the ring is zero, ready for the next frame. */
  lemma BeyondTailIsZero<P>(c: Channel<P>, d: nat)
    requires c.Valid() && c.outAvailable + FFT_SIZE - HOP_SIZE <= d < RING
    ensures c.outBuffer[Cell(c.outReadPos, d)] == 0.0
  {
    hide Overlap, Cell;
    OverlapBeyond(c.frames, |c.played| + d);
    assert c.outBuffer[..][Cell(c.outReadPos, d)] == Overlap(c.frames, |c.played| + d);
  }
}
