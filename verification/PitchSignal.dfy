/** What a whole run of the pitch channel does to a signal: the vocoder that changes nothing gives the input back. */
module PitchSignals {
  import opened ComplexNumbers
  import opened RealArithmetic
  import opened Dft
  import opened Fft
  import opened PitchChannel

  // ---------- The analysis window ----------

  /** The Hann window 0.5 * (1 - cos(2*pi*i/512)), the cosine taken from the table of roots. */
  function Hann(w: nat -> Complex): (win: seq<real>)
    ensures |win| == FFT_SIZE
  {
    seq(FFT_SIZE, i => 0.5 * (1.0 - Power(w(FFT_SIZE), i).re))
  }

  /** Four windows one hop apart add up to the sum, everywhere. */
  predicate OverlapsTo(win: seq<real>, sum: real) {
    && |win| == FFT_SIZE
    && forall i :: 0 <= i < HOP_SIZE ==> win[i] + win[i + 128] + win[i + 256] + win[i + 384] == sum
  }

  lemma HannHalves(w: nat -> Complex, i: nat)
    requires IsRootTable(w) && i < HALF
    ensures Hann(w)[i] + Hann(w)[i + 256] == 1.0
  {
    hide IsRootTable, Power;
    assert IsPow2(HALF);
    RootHalfTurn(w, HALF, i);
  }

  /** Hann windows one hop apart add up to 2. */
  lemma HannOverlapsToTwo(w: nat -> Complex)
    requires IsRootTable(w)
    ensures OverlapsTo(Hann(w), 2.0)
  {
    hide IsRootTable, Hann;
    forall i: nat | i < HOP_SIZE
      ensures Hann(w)[i] + Hann(w)[i + 128] + Hann(w)[i + 256] + Hann(w)[i + 384] == 2.0
    {
      HannHalves(w, i);
      HannHalves(w, i + 128);
    }
  }

  // ---------- Shifted windows ----------

  function Copies(win: seq<real>, n: nat): (c: seq<seq<real>>)
    ensures |c| == n
  {
    seq(n, _ => win)
  }

  lemma CopiesStep(win: seq<real>, n: nat, t: int)
    requires n > 0
    ensures Overlap(Copies(win, n), t) == Overlap(Copies(win, n - 1), t) + Sample(win, t - FrameStart(n - 1))
  {
    assert Copies(win, n)[..n - 1] == Copies(win, n - 1);
  }

  lemma CopiesFinal(win: seq<real>, m: nat, n: nat, t: int)
    requires m <= n && t < FrameStart(m)
    ensures Overlap(Copies(win, n), t) == Overlap(Copies(win, m), t)
  {
    OverlapFinal(Copies(win, m), Copies(win, n - m), t);
    assert Copies(win, m) + Copies(win, n - m) == Copies(win, n);
  }

  lemma FourSamples(win: seq<real>, sum: real, t: nat)
    requires OverlapsTo(win, sum) && t >= FFT_SIZE - HOP_SIZE
    ensures var q := t / 128;
            Sample(win, t - FrameStart(q)) + Sample(win, t - FrameStart(q - 1)) + Sample(win, t - FrameStart(q - 2))
            + Sample(win, t - FrameStart(q - 3)) == sum
  {
    var i := t % 128;
    assert t == 128 * (t / 128) + i;
    assert win[i] + win[i + 128] + win[i + 256] + win[i + 384] == sum;
  }

  /** Once four windows overlap, the sum of all windows is what four of them add up to. */
  lemma WindowsAddUp(win: seq<real>, sum: real, n: nat, t: nat)
    requires OverlapsTo(win, sum) && FFT_SIZE - HOP_SIZE <= t < FrameStart(n)
    ensures Overlap(Copies(win, n), t) == sum
  {
    hide Overlap;
    var q := t / 128;
    assert FullFrames(Copies(win, q - 3));
    CopiesFinal(win, q + 1, n, t);
    CopiesStep(win, q + 1, t);
    CopiesStep(win, q, t);
    CopiesStep(win, q - 1, t);
    CopiesStep(win, q - 2, t);
    OverlapBeyond(Copies(win, q - 3), t);
    FourSamples(win, sum, t);
  }

  // ---------- A run over blocks of one hop ----------

  /** The run over all blocks, from silence. */
  function FedAll<P>(w: nat -> Complex, win: seq<real>, vocoder: Vocoder<P>, initial: P, blocks: seq<seq<real>>)
    : (r: Run<P>)
    requires |win| == FFT_SIZE
    ensures |r.history| >= FrameStart(|r.frames|)
  {
    if blocks == [] then Run(initial, [], [], 0)
    else Fed(w, win, vocoder, FedAll(w, win, vocoder, initial, blocks[..|blocks| - 1]), blocks[|blocks| - 1])
  }

  /** Render blocks of the usual size: one hop each. */
  predicate HopBlocks(blocks: seq<seq<real>>) { forall b :: 0 <= b < |blocks| ==> |blocks[b]| == HOP_SIZE }

  /** The vocoder leaves every spectrum as it is. */
  ghost predicate KeepsSpectra<P(!new)>(vocoder: Vocoder<P>) {
    forall p: P, y: seq<Complex> :: vocoder(p, y).1 == y
  }

  /** The input delayed by 384 samples, silence before its start. */
  function Delayed(history: seq<real>, t: int): real { Sample(history, t - 384) }

  /** Frame f is the window laid over the delayed input from the start of the frame on, times 2/3. */
  ghost predicate IsShiftedWindow(win: seq<real>, history: seq<real>, frame: seq<real>, f: nat) {
    && |frame| == |win| == FFT_SIZE
    && forall k :: 0 <= k < FFT_SIZE ==>
         frame[k] == Times(Times(Delayed(history, FrameStart(f) + k), win[k]), 2.0 / 3.0)
  }

  ghost predicate AreShiftedWindows(win: seq<real>, history: seq<real>, frames: seq<seq<real>>) {
    forall f :: 0 <= f < |frames| ==> IsShiftedWindow(win, history, frames[f], f)
  }

  lemma LastSamplesAt(history: seq<real>, k: nat)
    requires k < FFT_SIZE
    ensures LastSamples(history)[k] == Sample(history, |history| - FFT_SIZE + k)
  {}

  lemma MoreHistory(win: seq<real>, history: seq<real>, block: seq<real>, frame: seq<real>, f: nat)
    requires IsShiftedWindow(win, history, frame, f) && FrameStart(f) + HOP_SIZE <= |history|
    ensures IsShiftedWindow(win, history + block, frame, f)
  {
    hide Times;
    forall k | 0 <= k < FFT_SIZE
      ensures frame[k] == Times(Times(Delayed(history + block, FrameStart(f) + k), win[k]), 2.0 / 3.0)
    {
      assert Delayed(history + block, FrameStart(f) + k) == Delayed(history, FrameStart(f) + k);
    }
  }

  lemma NewestFrame(win: seq<real>, history: seq<real>, frame: seq<real>, f: nat)
    requires IsWindowed(frame, win, LastSamples(history)) && |history| == FrameStart(f) + HOP_SIZE
    ensures IsShiftedWindow(win, history, frame, f)
  {
    hide Times, LastSamples;
    forall k | 0 <= k < FFT_SIZE
      ensures LastSamples(history)[k] == Delayed(history, FrameStart(f) + k)
    {
      LastSamplesAt(history, k);
    }
  }

  /** One hop adds one frame over the newest window. */
  lemma OneHop<P(!new)>(w: nat -> Complex, win: seq<real>, vocoder: Vocoder<P>, r: Run<P>, block: seq<real>)
    requires IsRootTable(w) && |win| == FFT_SIZE && KeepsSpectra(vocoder) && |block| == HOP_SIZE
    requires |r.history| == FrameStart(|r.frames|)
    ensures var s := Fed(w, win, vocoder, r, block);
            && s.history == r.history + block && |s.frames| == |r.frames| + 1 && s.silent == r.silent
            && s.frames[..|r.frames|] == r.frames
            && IsWindowed(s.frames[|r.frames|], win, LastSamples(s.history))
  {
    hide IsRootTable, Transform, Frame, LastSamples, IsWindowed, IsSpectrum;
    var input := LastSamples(r.history + block);
    assert Frames(w, win, vocoder, r.phase, input, 0) == (r.phase, []);
    var y := Transform(w, Windowed(win, input));
    AnalysisIsSpectrum(w, win, input, y);
    assert vocoder(r.phase, y).1 == y;
    UnchangedFrame(w, win, input, y, y);
    assert Frames(w, win, vocoder, r.phase, input, 1).1 == [Frame(w, y)];
  }

  lemma {:induction false} AllFrames<P(!new)>(w: nat -> Complex, win: seq<real>, vocoder: Vocoder<P>, initial: P,
                                             blocks: seq<seq<real>>)
    requires IsRootTable(w) && |win| == FFT_SIZE && KeepsSpectra(vocoder) && HopBlocks(blocks)
    ensures var r := FedAll(w, win, vocoder, initial, blocks);
            && |r.frames| == |blocks| && |r.history| == FrameStart(|blocks|) && r.silent == 0
            && AreShiftedWindows(win, r.history, r.frames)
    decreases |blocks|
  {
    hide IsRootTable, Fed, IsShiftedWindow, KeepsSpectra, LastSamples;
    if blocks != [] {
      var n := |blocks| - 1;
      AllFrames(w, win, vocoder, initial, blocks[..n]);
      var r := FedAll(w, win, vocoder, initial, blocks[..n]);
      var s := Fed(w, win, vocoder, r, blocks[n]);
      OneHop(w, win, vocoder, r, blocks[n]);
      forall f | 0 <= f < |s.frames| ensures IsShiftedWindow(win, s.history, s.frames[f], f) {
        if f < n {
          assert s.frames[f] == r.frames[f];
          MoreHistory(win, r.history, blocks[n], r.frames[f], f);
        } else {
          NewestFrame(win, s.history, s.frames[n], n);
        }
      }
    }
  }

  // ---------- The sum of the frames ----------

  lemma ShiftedSample(win: seq<real>, history: seq<real>, frame: seq<real>, f: nat, t: int)
    requires IsShiftedWindow(win, history, frame, f)
    ensures Sample(frame, t - FrameStart(f)) ==
            Times(2.0 / 3.0, Times(Delayed(history, t), Sample(win, t - FrameStart(f))))
  {
  }

  lemma TimesAdds(c: real, d: real, a: real, b: real)
    ensures Times(c, Times(d, a)) + Times(c, Times(d, b)) == Times(c, Times(d, a + b))
  {}

  /** The frames add up to the delayed input times the sum of the shifted windows. */
  lemma {:induction false} FramesAddUp(win: seq<real>, history: seq<real>, frames: seq<seq<real>>, t: int)
    requires AreShiftedWindows(win, history, frames)
    ensures Overlap(frames, t) == Times(2.0 / 3.0, Times(Delayed(history, t), Overlap(Copies(win, |frames|), t)))
    decreases |frames|
  {
    hide IsShiftedWindow, Times, Delayed, FrameStart;
    if frames == [] {
      TimesZero(Delayed(history, t));
      TimesZero(2.0 / 3.0);
    } else {
      var n := |frames| - 1;
      FramesAddUp(win, history, frames[..n], t);
      ShiftedSample(win, history, frames[n], n, t);
      CopiesStep(win, n + 1, t);
      TimesAdds(2.0 / 3.0, Delayed(history, t), Overlap(Copies(win, n), t), Sample(win, t - FrameStart(n)));
    }
  }

  /**
   With windows that add up to `sum` and a vocoder that changes nothing, the sum of the frames is the input 384 samples
   late, times 2/3 of `sum`: the gain is 1 exactly if windows one hop apart add up to 3/2.
   */
  lemma UnchangedSignal<P(!new)>(w: nat -> Complex, win: seq<real>, sum: real, vocoder: Vocoder<P>, initial: P,
                                 blocks: seq<seq<real>>, t: nat)
    requires IsRootTable(w) && OverlapsTo(win, sum) && KeepsSpectra(vocoder) && HopBlocks(blocks)
    requires t < FrameStart(|blocks|)
    ensures var r := FedAll(w, win, vocoder, initial, blocks);
            Overlap(r.frames, t) == Times(2.0 / 3.0, Times(Delayed(r.history, t), sum))
  {
    hide IsRootTable, FedAll, KeepsSpectra, Overlap;
    var r := FedAll(w, win, vocoder, initial, blocks);
    AllFrames(w, win, vocoder, initial, blocks);
    FramesAddUp(win, r.history, r.frames, t);
    if t >= FFT_SIZE - HOP_SIZE { WindowsAddUp(win, sum, |blocks|, t); }
  }

  /**
   The Hann window of the worklet gives a signal that nothing shifts back 4/3 times as loud: the factor 2/3 undoes a
   window sum of 3/2, not the 2 that Hann windows applied once add up to.
   */
  lemma HannGain<P(!new)>(w: nat -> Complex, vocoder: Vocoder<P>, initial: P, blocks: seq<seq<real>>, t: nat)
    requires IsRootTable(w) && KeepsSpectra(vocoder) && HopBlocks(blocks) && t < FrameStart(|blocks|)
    ensures var r := FedAll(w, Hann(w), vocoder, initial, blocks);
            Overlap(r.frames, t) == 4.0 / 3.0 * Delayed(r.history, t)
  {
    hide IsRootTable, KeepsSpectra, FedAll, Overlap, OverlapsTo;
    HannOverlapsToTwo(w);
    UnchangedSignal(w, Hann(w), 2.0, vocoder, initial, blocks, t);
  }

  /** What the channel has played after such a run. */
  lemma PlayedIsDelayedInput<P(!new)>(c: Channel<P>, w: nat -> Complex, vocoder: Vocoder<P>, initial: P,
                                      blocks: seq<seq<real>>, t: nat)
    requires IsRootTable(w) && KeepsSpectra(vocoder) && HopBlocks(blocks)
    requires c.Valid() && c.Current() == FedAll(w, Hann(w), vocoder, initial, blocks)
    ensures |c.played| == |c.history|
    ensures t < |c.played| ==> c.played[t] == 4.0 / 3.0 * Delayed(c.history, t)
  {
    hide IsRootTable, KeepsSpectra, FedAll, Overlap, Hann;
    AllFrames(w, Hann(w), vocoder, initial, blocks);
    if t < |c.played| { HannGain(w, vocoder, initial, blocks, t); }
  }
}
