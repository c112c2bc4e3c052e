# Open Sample Manager: a Dafny model

A model of the parts of the sample manager where correctness does not show from one function body, and proofs about
it. `dafny verify dfyconfig.toml` checks everything.

**Signal transforms.** `Complex.dfy`, `RealArithmetic.dfy` and `Dft.dfy` hold a theory of the discrete Fourier
transform over exact complex numbers. The roots of unity are a table known only by three laws: unit modulus, the
half-turn is -1, and the root of twice the order squares to the root. `Fft.dfy` is the in-place transform of the
pitch worklet, its inverse and the mirror step; `PitchChannel.dfy` is one channel of the worklet with its sliding
window and overlap-add ring, `PitchSignal.dfy` what a whole run of it does to a signal; `Bpm.dfy` is the
autocorrelation and the lag search of the tempo estimate.

**Protocols.** `UiCommandQueue.dfy` is the bounded lease queue, each mutex-protected function one atomic step, and
`ActionHandlers.dfy` the HTTP handlers that use it together with the manager lock. `ProviderLifecycle.dfy` is the
embedded provider browser: UI events, a serial queue of operations, cancellable reconciles, and refs that mirror the
webviews of the backend; `ProviderProgress.dfy` says what it gets done once it is left alone, and
`ProviderLifecycleHook.dfy` is the hook that assigns those refs, proved to take exactly the protocol's steps.
`FreesoundWorkspace.dfy` is the Freesound hook with its overlapping operations. `Scan.dfy` is the
scan that inserts analyses in the order they happen to arrive.

**Fast or stateful code against something simple.** `SimilarSamples.dfy` (a doubling search against filter-and-take),
`Text.dfy`, `SearchTokens.dfy`, `SearchQuery.dfy`, `SearchRoundTrip.dfy`, `SearchMeaning.dfy` and `SearchLocale.dfy`
(structured requests printed to the search language and parsed back), `SearchClauses.dfy` (what each clause asks of a
sample, in numbers, spellings and pitches), `CollectionNames.dfy`, `CollectionTables.dfy` and
`CollectionLibrary.dfy` (collections and project details against append-unique lists), `TempoMap.dfy` (durations
against a per-tick sum).

**Files.** `Promotion.dfy` is the promotion of staged files with preflight, exclusive creation and rollback.

Where a class mutates fields, its methods keep the invariant, are tied to a function on values, and state what their
caller counts on; the properties of whole runs are lemmas about that function. Floats are exact reals and integers are
unbounded, except where a width matters: ids wrap at 2^64 and fetch sizes saturate at the greatest `usize`.

Assumptions that come from outside the modelled code:

- The backend's open command closes every webview before it opens one (src-tauri/src/providers/window_opening.rs:10-24),
  and close commands succeed. A render publishes the latest active provider.
- `IsRootTable` stands for the cosines and sines of the source. `Lawful` and `Lowers` list what is used of Unicode
  lower-casing, and `BoundsPrint` what is used of printing the tempo bounds a request carries; a locale that meets
  them is given (`SearchLocales.LawsCanBeMet`, `SearchLocales.NamesCanBeLowered`).
- Tempo bounds of a request are not negative, as its validation demands (src-tauri/src/http_api/requests.rs:443-452);
  a negative lower bound would not survive the text form (`SearchMeaning.RangeReadsBackIff`).
- Others add new names to the download root during a promotion, but do not replace or delete files.
- A transaction of the database is atomic, foreign keys are on, and deletes cascade as the schema says.

What turned out false of the code, stated as it is:

- The factor 2/3 of the pitch worklet does not undo its window: Hann windows applied once and overlapping four times
  add up to 2, so a signal the vocoder leaves alone comes back 4/3 times as loud, not as loud as it went in as the
  comment at ui/public/pitch-processor.js:212-214 says (`PitchSignals.UnchangedSignal`, `PitchSignals.HannGain`).
- Selecting the active provider again while it is being opened loses it: the open is overtaken and closed, no effect
  runs because nothing it depends on has changed, and nothing is scheduled (`ProviderProgress.ReselectLosesTheOpen`).
  After an effect of a shown view the provider does end up open (`ProviderProgress.ShownProviderEndsOpen`).
- `ticks_to_seconds` counts the last segment twice when a tempo event sits at or after the target tick, so a file with
  a tempo event on its very last tick reads too long (`TempoMaps.ExactIff`, `TempoMaps.DurationExactIff`,
  `TempoMaps.LastTickCountsTwice`). The Set Tempo meta-event (FF 51 03, section "Meta-Events" of the Standard MIDI
  Files 1.0 specification) takes effect from its tick on and adds no time of its own.
- The tokens of a search round trip come back only for an even number of quotes in the free query
  (`SearchRoundTrip.TokensRoundTripIff`); with a stray quote a clause can end up inside a token of the query and is
  then searched for as text (`SearchRoundTrip.StrayQuoteLosesTheClause`, `SearchMeaning.StrayQuoteLosesTheType`).
- A query made of quotes only is searched for as text alone but says nothing beside a structured clause
  (`SearchMeaning.OwnIsTheQueryParsedAloneIff`, `SearchMeaning.QuotesOnlyQuerySaysNothing`).
- Request validation checks the length of structured values only (src-tauri/src/http_api/requests.rs:197-249). A blank
  one is accepted, restricts nothing, and its clause is searched for as a word like `type:`; the request means what its
  fields say exactly if none is blank (`SearchMeaning.AllOverriddenIsNarrowedIff`,
  `SearchMeaning.BlankTypeIsSearchedAsText`).
- A failed promotion does not restore files it has already moved, which happens exactly when the first file went
  through (`Promotions.StagingSurvivesIff`, `Promotions.FilesBeforeTheFailureAreLost`, `Promotions.FirstFileIsLost`).
- A refused COMMIT, and nothing else, leaves the scan's transaction open (`Scans.Database.Scan`).
- Files whose names are not valid text share the empty path (core/src/manager/analyze.rs:173), so of two of them only
  the earlier arrival is stored (`Scans.ScanAddsEveryNewFileOnceIff`, `Scans.OrderDoesNotMatterIff`,
  `Scans.UnnamedFilesCollide`).

## Model

| member | source | states |
|---|---|---|
| Fft.NextReversed | ui/public/pitch-processor.js:22-25 | The incremental carry loop takes the bit reversal of i-1 to the bit reversal of i. |
| Fft.RevInvolution | ui/public/pitch-processor.js:22-30 | Bit reversal is its own inverse within the index range, so swapping only where i < j applies it once. |
| Fft.BitReversalPass | ui/public/pitch-processor.js:22-30 | Both arrays end permuted by bit reversal, every index once. |
| Fft.ButterflyBlock | ui/public/pitch-processor.js:38-54 | One block is combined butterfly by butterfly with the running power of the root; every other cell is untouched. |
| Dft.Butterfly | ui/public/pitch-processor.js:41-50 | Bins k and k+m of a 2m-point transform are the sum and difference of the two half-size bins, the second turned by the root. |
| Fft.BlockStep | ui/public/pitch-processor.js:37-55 | Combining neighbouring blocks makes the block of double length the transform of its bit-reversed residue class. |
| Fft.Stage | ui/public/pitch-processor.js:32-56 | After stage len every block of that length holds the transform of its residue class of the input. |
| Fft.Fft | ui/public/pitch-processor.js:18-57 | For every power-of-two length and every input the arrays are left holding exactly the discrete Fourier transform. |
| Fft.Ifft | ui/public/pitch-processor.js:60-69 | Negate, transform, negate and scale leaves exactly the normalised inverse sum. |
| Dft.Inversion | ui/public/pitch-processor.js:60-69 | Summing the transform against the conjugate roots returns every sample times the length, by orthogonality of the roots. |
| Fft.InverseUndoesTransform | ui/public/pitch-processor.js:60-69 | The inverse undoes the transform on every power-of-two length. |
| Fft.TransformUndoesInverse | ui/public/pitch-processor.js:60-69 | The transform undoes the inverse, so the two are mutually inverse bijections. |
| Fft.Mirror | ui/public/pitch-processor.js:203-208 | After the mirror loops the spectrum is conjugate symmetric with real bins 0 and HALF, and the lower bins are kept. |
| Fft.MirroredInverseIsReal | ui/public/pitch-processor.js:202-210 | The inverse of any conjugate-symmetric spectrum has no imaginary part. |
| PitchChannel.FrameIsWholeSignal | ui/public/pitch-processor.js:202-219 | Adding only the real part of a frame drops nothing, whatever the vocoder wrote to the lower bins. |
| PitchChannel.AnalysisIsSpectrum | ui/public/pitch-processor.js:143-149 | The spectrum put before the vocoder is the only one whose inverse transform is the input times the window. |
| Dft.RealSpectrumIsSymmetric | ui/public/pitch-processor.js:202-208 | The transform of a real signal is conjugate symmetric, so mirroring its lower bins gives it back. |
| PitchChannel.FrameHasBins | ui/public/pitch-processor.js:202-219 | The frame is the real signal whose spectrum is 2/3 of the synthesis bins, bins 0 and HALF without their imaginary part. |
| PitchChannel.UnchangedFrame | ui/public/pitch-processor.js:134-221 | A vocoder that changes none of bins 0..HALF gives back every windowed sample times 2/3. |
| PitchChannel.FrameByFrame | ui/public/pitch-processor.js:283-287 | Of several frames over one window, each is made in the phase state the frames before it left. |
| PitchChannel.Channel.OverlapAdd | ui/public/pitch-processor.js:215-219 | After the loop the ring holds the sum including the new frame at its place. |
| PitchChannel.Channel.ProcessFrame | ui/public/pitch-processor.js:134-221 | One frame puts exactly the windowed input's spectrum before the vocoder, moves the phase state on, and appends one real frame whose own spectrum is 2/3 of the bins the vocoder gave; bins left as they were give back every input sample times its window value times 2/3. |
| PitchChannel.Channel.Slide | ui/public/pitch-processor.js:271-278 | The window is always the last 512 samples of the whole input. |
| PitchChannel.DrainStep | ui/public/pitch-processor.js:291-295 | Reading and clearing the head yields the next sample of the sum and moves the window by one. |
| PitchChannel.Channel.RunFrames | ui/public/pitch-processor.js:283-287 | One frame per completed hop, all over the same window, the remainder left in hopCounter. |
| PitchChannel.Channel.DrainBlock | ui/public/pitch-processor.js:289-299 | The output is the next part of the sum followed by silence; all inserted silence is the most samples that ever waited for their hop, and stays below a hop. |
| PitchChannel.Channel.ProcessBlock | ui/public/pitch-processor.js:264-300 | Over any run of blocks of 1..512 samples the ring refines the unbounded overlap-add sum of all frames; what is played is a prefix of that sum with the silence inserted. |
| PitchChannel.Channel.EnterPassthrough | ui/public/pitch-processor.js:243-258 | The first passthrough block after use resets the stream, later ones change nothing. |
| PitchChannel.PlayedIsFinal | ui/public/pitch-processor.js:223-303 | A played sample is the sample of the final sum: no later frame would have changed it. |
| PitchChannel.BeyondTailIsZero | ui/public/pitch-processor.js:216-219 | Cells beyond outAvailable + 384 from the read head are zero, so the next frame adds onto a clean tail. |
| PitchSignals.HannOverlapsToTwo | ui/public/pitch-processor.js:83-86 | Four Hann windows one hop apart add up to 2 everywhere. |
| PitchSignals.AllFrames | ui/public/pitch-processor.js:271-287 | In a run of one-hop blocks frame f is the window laid over the input 384 samples late from sample 128*f on, and no silence is inserted. |
| PitchSignals.UnchangedSignal | ui/public/pitch-processor.js:212-219 | With a vocoder that changes nothing, the sum of all frames is the input 384 samples late, times 2/3 of what the windows add up to. |
| PitchSignals.HannGain | ui/public/pitch-processor.js:212-214 | With the Hann window the signal comes back 4/3 times as loud, for every input and every sample. |
| PitchSignals.PlayedIsDelayedInput | ui/public/pitch-processor.js:223-303 | A channel after such a run has played as many samples as it was fed: the input 384 samples late, 4/3 times as loud. |
| Bpm.NextPowerOfTwo | core/src/analysis/bpm.rs:114 | The padded length is a power of two, at least and less than twice the doubled envelope. |
| Bpm.ProcessForward | core/src/analysis/bpm.rs:125 | rustfft's forward transform taken as the unnormalised discrete Fourier transform. |
| Bpm.ProcessInverse | core/src/analysis/bpm.rs:131 | rustfft's inverse transform taken as the unnormalised inverse sum. |
| Dft.Correlation | core/src/analysis/bpm.rs:125-131 | Correlation theorem: the inverse sum of the power spectrum is the linear correlation times the length wherever nothing wraps around. |
| Bpm.PaddedCorrelation | core/src/analysis/bpm.rs:114-131 | Padding to at least twice the length makes the circular correlation the linear one at every lag below the length. |
| Bpm.ComputeAutocorrelationFft | core/src/analysis/bpm.rs:109-138 | For every envelope and lag the result is the transform length times the sum of e[i]*e[i+lag]. |
| Bpm.ZeroLagDominates | core/src/analysis/bpm.rs:84-99 | No lag correlates more strongly than lag zero, in either sign. |
| Bpm.StrongestLag | core/src/analysis/bpm.rs:89-92 | The iterator maximum: a greatest value in the range, the last of equals. |
| Bpm.SearchedIffTempo | core/src/analysis/bpm.rs:70-82 | A lag is in the search range exactly when a beat every that many hops of 512 samples is a tempo between 60 and 200. |
| Bpm.EstimateBpm | core/src/analysis/bpm.rs:49-107 | Empty exactly when the samples are too few, no such tempo has a lag inside the envelope, or the padded zero lag is at most the float epsilon; otherwise no tempo between 60 and 200 with a lag inside the envelope correlates more strongly than the one answered, it is the last of the strongest, and its strength is already in [0,1]. |
| UiCommandQueues.StepKeepsInv | src-tauri/src/external_commands.rs:136-208 | Every critical section keeps pending + in-flight + reserved within capacity and the record of every id. |
| UiCommandQueues.EveryRunAccountsForEveryId | src-tauri/src/external_commands.rs:136-208 | After any interleaving from the empty queue the size is within capacity, and below 2^64 commits every committed id is in exactly one of pending, in flight, acknowledged, discarded; a discard means four nacks and at least four claims. |
| UiCommandQueues.RetriesRunOut | src-tauri/src/external_commands.rs:187-208 | The sum of 4 - retries over live ids bounds all effective acknowledgements and nacks while nothing is committed. |
| UiCommandQueues.ClaimMovesEverything | src-tauri/src/external_commands.rs:172-176 | A claim empties what is pending, moves every entry in flight under its own id and leaves what was in flight as it was. |
| UiCommandQueues.ClaimDeliversEverything | src-tauri/src/external_commands.rs:172-185 | In every run a claim has every committed command in flight that is neither acknowledged nor discarded. |
| UiCommandQueues.LeasesInOrder | src-tauri/src/external_commands.rs:177-184 | The leases handed out are all in-flight entries, each once and none missing, by increasing id. |
| UiCommandQueues.UiCommandQueue.ReserveSlot | src-tauri/src/external_commands.rs:136-151 | A slot is taken unless the queue is full, and the error reports size and capacity. |
| UiCommandQueues.UiCommandQueue.CancelReservation | src-tauri/src/external_commands.rs:153-157 | A dropped reservation gives its slot back and touches nothing else. |
| UiCommandQueues.UiCommandQueue.CommitReservation | src-tauri/src/external_commands.rs:159-170 | A slot becomes a pending command behind the others under the next id, which wraps at 2^64. |
| UiCommandQueues.UiCommandQueue.Enqueue | src-tauri/src/external_commands.rs:104-107 | Reserve then commit; a full queue changes nothing. |
| UiCommandQueues.UiCommandQueue.EnqueueAfter | src-tauri/src/external_commands.rs:122-134 | With arbitrary steps of other threads between reserving and committing: the operation runs exactly if a slot was granted, a failure gives back its own slot and nothing else, and a success is followed by its command behind what the others committed. |
| UiCommandQueues.UiCommandQueue.ClaimAll | src-tauri/src/external_commands.rs:172-185 | Nothing is pending afterwards; exactly what was pending or in flight is in flight, each entry unchanged while ids have not wrapped, and a lease for every one of them is returned in order. |
| UiCommandQueues.UiCommandQueue.AcknowledgeLease | src-tauri/src/external_commands.rs:187-194 | Removes exactly the acknowledged lease, tells whether there was one, and touches nothing else. |
| UiCommandQueues.UiCommandQueue.NackLease | src-tauri/src/external_commands.rs:196-208 | The lease is no longer in flight: requeued at the front with one more retry, discarded on the fourth nack, or unknown with nothing changed. |
| ActionHandlers.TakeKeepsInv | src-tauri/src/http_api/router/action_handlers.rs:162-175 | Every step of any handler or of the renderer keeps lock ownership, the reservations held, and the record of each write. |
| ActionHandlers.LocksExclude | src-tauri/src/http_api/router/action_handlers.rs:445-467 | A handler that wants a lock, or the renderer, may go exactly while no handler is inside the critical section of that lock. |
| ActionHandlers.NoHoldAndWait | src-tauri/src/http_api/router/action_handlers.rs:445-467 | No handler waits for one of the two locks while it owns the other. |
| ActionHandlers.NoDeadlock | src-tauri/src/http_api/router/action_handlers.rs:162-175 | Whatever the schedule, while some handler is unfinished some handler can move. |
| ActionHandlers.HandlersFinish | src-tauri/src/http_api/router/action_handlers.rs:445-467 | Every schedule gives the handlers only a bounded number of steps, whatever the renderer does in between. |
| ActionHandlers.WritesAreAnnounced | src-tauri/src/http_api/router/action_handlers.rs:445-467 | In every run a collection write that ran ends with its command committed, no two accepted handlers under the same one, and a full queue or a failure means no write and no slot left behind. |
| ActionHandlers.ResponseSaysWhatHappened | src-tauri/src/http_api/router/action_handlers.rs:162-175 | In every run a finished handler answers with the first thing that went wrong in its own critical sections (poisoned lock, missing sample, failure, panic, full queue) and with acceptance if nothing did, and a write has run exactly if its section went well. |
| ActionHandlers.PoisonedByPanics | src-tauri/src/http_api/router/action_handlers.rs:445-460 | The manager lock is poisoned exactly by a panic of its owner, and stays so. |
| ProviderLifecycle.NextKeepsInv | ui/src/hooks/providerBrowserLifecycleSurface.ts:58-166 | Every event, of the UI or of the running operation, keeps the mirror of refs and backend, the promised closes and the reconcile identities. |
| ProviderLifecycle.BackendIsWhatTheRefsSay | ui/src/hooks/providerBrowserLifecycleSurface.ts:58-166 | In every run, whenever no operation is running, the open webviews are exactly the opened ref's and nothing is marked opening; at most one is ever open and the visible one is open. |
| ProviderLifecycle.DrainedShowsOnlyTheActiveProvider | ui/src/hooks/providerBrowserLifecycle.ts:146-164 | With the queue drained no webview is open but that of the active provider, so none if there is no active provider, and none after an unmount without remount. |
| ProviderLifecycle.NothingIsOpenWithoutActive | ui/src/hooks/providerBrowserLifecycle.ts:157-164 | In every run and at every moment, a browser without an active provider has no webview, owns none and is not opening one, whatever is queued or running. |
| ProviderLifecycle.CoveredViewEndsEmpty | ui/src/hooks/providerBrowserLifecycle.ts:110-118 | Once the view has been left or the settings cover it, and while it stays so, the queue drains to a backend without any webview. |
| ProviderLifecycle.SelectKeepsInv | ui/src/hooks/providerBrowserLifecycle.ts:146-155 | Selecting another provider queues the close of the open surface ahead of any reconcile that could open the new one. |
| ProviderLifecycle.RootChangeIsSeen | ui/src/hooks/providerBrowserLifecycleSurface.ts:168-171 | A surface opened under another download root than the current one is always reported as changed. |
| ProviderLifecycle.IntentChangeCancels | ui/src/hooks/providerBrowserLifecycle.ts:46-50 | Whatever advances the intent cancels the reconcile that was pending. |
| ProviderLifecycle.CancelledReconcileNeverRuns | ui/src/hooks/providerBrowserLifecycleQueue.ts:20-41 | A cancelled reconcile stays cancelled in every run: reaching the head of the queue it is only taken off. |
| ProviderLifecycle.NothingStaysPending | ui/src/hooks/providerBrowserLifecycleQueue.ts:26-42 | A pending reconcile has its frame, its queue entry or is running; once all drained nothing is pending, so the next effect or resize schedules one. |
| ProviderLifecycle.OvertakenOpenIsClosed | ui/src/hooks/providerBrowserLifecycleSurface.ts:103-140 | An open overtaken by a newer intent never becomes the opened surface; when its own operation ends nothing is open. |
| ProviderProgress.ShownProviderEndsOpen | ui/src/hooks/providerBrowserLifecycle.ts:100-122 | After the effect of a shown view, whatever is queued, scheduled or running, the browser comes to rest with the webview of the active provider open and no other, and under the new download root if that was seen to change. |
| ProviderProgress.QuietRunsEnd | ui/src/hooks/providerBrowserLifecycleQueue.ts:14-41 | Left alone, the browser comes to rest within a number of steps its state bounds, and until then some step is possible. |
| ProviderProgress.EffectSchedules | ui/src/hooks/providerBrowserLifecycle.ts:105-121 | The effect of a shown view schedules a reconcile, or queues the transition if the root has changed. |
| ProviderProgress.ClosedForGood | ui/src/hooks/providerBrowserLifecycle.ts:157-208 | Clearing the provider, changing the mode and leaving the web view bring the browser to rest without a webview, whatever is queued or running. |
| ProviderProgress.LeftAndBack | ui/src/hooks/providerBrowserLifecycle.ts:113-120 | Leaving ends with the effect that sees another view, and the next effect of a shown view makes opening possible again. |
| ProviderProgress.UnmountedEndsEmpty | ui/src/hooks/providerBrowserLifecycle.ts:133-144 | An unmount not followed by a remount ends without a webview, whatever else happens. |
| ProviderProgress.ReselectLosesTheOpen | ui/src/hooks/providerBrowserLifecycle.ts:146-155 | Selecting the active provider while it is being opened brings the browser to rest with nothing open and nothing scheduled. |
| ProviderProgress.ResizeSetsBounds | ui/src/hooks/providerBrowserLifecycle.ts:124-131 | A resize of an idle browser reaches the backend as bounds of the open webview. |
| ProviderProgress.HistoryIsForTheActiveProvider | ui/src/hooks/providerBrowserLifecycle.ts:166-173 | A history command is queued for the active provider and carried out only if it still is the active one. |
| ProviderLifecycleHook.LifecycleHook.constructor | ui/src/hooks/providerBrowserLifecycle.ts:29-42 | The refs start in the initial state, which satisfies the invariant. |
| ProviderLifecycleHook.LifecycleHook.CancelReconcile | ui/src/hooks/providerBrowserLifecycleQueue.ts:20-24 | Keeps the invariant; afterwards no reconcile that was scheduled or queued can run any more, and the pending one counts as cancelled. |
| ProviderLifecycleHook.LifecycleHook.Advance | ui/src/hooks/providerBrowserLifecycle.ts:46-50 | Keeps the invariant; nothing reconciled or opened under the old intent can be taken over, and no queued reconcile is live. |
| ProviderLifecycleHook.LifecycleHook.EnqueueReconcile | ui/src/hooks/providerBrowserLifecycleQueue.ts:26-41 | Keeps the invariant; one reconcile is pending afterwards: the one that already was, or one under an identity that nothing queued or cancelled has. |
| ProviderLifecycleHook.LifecycleHook.OnFrame | ui/src/hooks/providerBrowserLifecycleQueue.ts:30-38 | Keeps the invariant; the entry the frame queues is live, and it is the only live one. |
| ProviderLifecycleHook.LifecycleHook.OnEffect | ui/src/hooks/providerBrowserLifecycle.ts:100-122 | Keeps the invariant; the pending reconcile is cancelled, a new one is pending, with its frame, exactly if a provider is to be shown and no change of the root is handled by a queued transition instead, and a view that is covered or left has the close of the open surface under way. |
| ProviderLifecycleHook.LifecycleHook.SelectProvider | ui/src/hooks/providerBrowserLifecycle.ts:146-155 | Keeps the invariant; the surface of any other provider is being closed, or will be before any queued reconcile can open the selected one. |
| ProviderLifecycleHook.LifecycleHook.LeaveWebView | ui/src/hooks/providerBrowserLifecycle.ts:175-191 | Keeps the invariant; from the web view nothing can be opened under any intent, and the close of the open surface is queued. |
| ProviderLifecycleHook.LifecycleHook.StartReconcile | ui/src/hooks/providerBrowserLifecycleSurface.ts:142-158 | An open starts exactly if the active provider is not the opened one and may be reconciled under the intent, and then nothing else is open; otherwise no ref changes. |
| ProviderLifecycleHook.LifecycleHook.OpenSettled | ui/src/hooks/providerBrowserLifecycleSurface.ts:119-139 | Keeps the invariant; the provider becomes the opened one exactly if the open succeeded and is still current; a stale success is being closed, and only a current failure forgets the provider. |
| ProviderLifecycleHook.LifecycleHook.StaleClosed | ui/src/hooks/providerBrowserLifecycleSurface.ts:81-101 | Keeps the invariant; the overtaken open ends with nothing open and no ref set. |
| ProviderLifecycleHook.LifecycleHook.ProviderClosed | ui/src/hooks/providerBrowserLifecycleSurface.ts:58-69 | Keeps the invariant; the closed provider is in neither the backend nor a ref, and any other surface stays open and owned. |
| ProviderLifecycleHook.LifecycleHook.AllClosed | ui/src/hooks/providerBrowserLifecycleSurface.ts:71-74 | Keeps the invariant; nothing is open, and an open starts exactly if this is a root transition whose intent and provider may still be reconciled. |
| ProviderLifecycleHook.LifecycleHook.RunReconcile | ui/src/hooks/providerBrowserLifecycle.ts:79-84 | Keeps the invariant; the pending reconcile opens exactly if the active provider is not the opened one and may be reconciled, and needs a viewport. |
| ProviderLifecycleHook.LifecycleHook.BeginOperation | ui/src/hooks/providerBrowserLifecycleQueue.ts:14-18 | Keeps the invariant; a cancelled reconcile only leaves the queue, and an open starts exactly if the head is the live reconcile and the active provider is not the opened one and may be reconciled. |
| FreesoundWorkspaces.NextKeepsInv | ui/src/hooks/useFreesoundWorkspace.ts:103-234 | Every step keeps the accounting of object URLs and the meaning of the busy flag. |
| FreesoundWorkspaces.EveryUrlIsPlayedOrRevoked | ui/src/hooks/useFreesoundWorkspace.ts:103-109 | Over all interleavings each created URL is the current one or was revoked exactly once, at most one is live, none after unmount, and the busy flag is set exactly while the operation of the current generation is in flight; while that is a search, a key deletion or a fetch nothing plays. |
| FreesoundWorkspaces.LateOperationIsHarmless | ui/src/hooks/useFreesoundWorkspace.ts:183-212 | An operation of an older generation settles without touching the flag, the preview or the results of a newer one. |
| FreesoundWorkspaces.SettlingEnds | ui/src/hooks/useFreesoundWorkspace.ts:189-233 | Every operation that settles is over, but for a current download whose path is still handed on; the busy flag falls exactly with the current one, and a failure changes nothing else. |
| FreesoundWorkspaces.ResultsNeverGoBack | ui/src/hooks/useFreesoundWorkspace.ts:183-189 | Results are only ever replaced by those of a later operation. |
| FreesoundWorkspaces.DisabledStaysSilent | ui/src/hooks/useFreesoundWorkspace.ts:132 | Once disabled nothing plays and nothing is busy until a render enables the workspace again, whatever is in flight. |
| FreesoundWorkspaces.FreesoundWorkspace.Stop | ui/src/hooks/useFreesoundWorkspace.ts:103-109 | Nothing plays, every URL ever created is revoked exactly once, and no fetch in flight can still publish its preview. |
| FreesoundWorkspaces.FreesoundWorkspace.FailPreview | ui/src/hooks/useFreesoundWorkspace.ts:111-115 | Keeps the invariant; the failed URL no longer plays, and the failure of any other URL changes nothing. |
| FreesoundWorkspaces.FreesoundWorkspace.Disable | ui/src/hooks/useFreesoundWorkspace.ts:132 | Keeps the invariant; nothing plays, nothing is busy, every URL is revoked, and every operation in flight is overtaken. |
| FreesoundWorkspaces.FreesoundWorkspace.UnmountHook | ui/src/hooks/useFreesoundWorkspace.ts:133 | Keeps the invariant; nothing plays and every URL is revoked, while the operation in flight keeps the busy flag but is no longer current. |
| FreesoundWorkspaces.FreesoundWorkspace.BeginSearch | ui/src/hooks/useFreesoundWorkspace.ts:177-183 | Keeps the invariant; refused exactly when busy, disabled or blank, and otherwise busy under a new generation with every URL revoked. |
| FreesoundWorkspaces.FreesoundWorkspace.BeginSaveKey | ui/src/hooks/useFreesoundWorkspace.ts:136-142 | Keeps the invariant; busy under a new generation with the preview still playing. |
| FreesoundWorkspaces.FreesoundWorkspace.BeginDeleteKey | ui/src/hooks/useFreesoundWorkspace.ts:151-157 | Keeps the invariant; busy under a new generation with every URL revoked. |
| FreesoundWorkspaces.FreesoundWorkspace.BeginPreview | ui/src/hooks/useFreesoundWorkspace.ts:192-199 | Keeps the invariant; busy under a new generation, every old URL revoked, and the fetch bound to the preview generation it captured. |
| FreesoundWorkspaces.FreesoundWorkspace.BeginDownload | ui/src/hooks/useFreesoundWorkspace.ts:215-225 | Keeps the invariant; refused also without a folder, and otherwise busy with the preview still playing. |
| FreesoundWorkspaces.FreesoundWorkspace.PreviewArrived | ui/src/hooks/useFreesoundWorkspace.ts:200-212 | Keeps the invariant; the new URL is the one being played if nothing overtook the fetch and revoked once otherwise, and an older fetch leaves the busy flag alone. |
| FreesoundWorkspaces.FreesoundWorkspace.DownloadArrived | ui/src/hooks/useFreesoundWorkspace.ts:226-233 | Keeps the invariant; a current download stays in flight and busy while its path is handed on, an overtaken one is over without touching a newer one's flag. |
| FreesoundWorkspaces.FreesoundWorkspace.SearchArrived | ui/src/hooks/useFreesoundWorkspace.ts:183-189 | Keeps the invariant; the results are those of the operation exactly if it is current, and never go back to an earlier one. |
| FreesoundWorkspaces.FreesoundWorkspace.Finish | ui/src/hooks/useFreesoundWorkspace.ts:189 | The busy flag falls exactly when the finished operation is the current one; the invariant survives. |
| SearchTokens.Tokenize | core/src/db/operations/search_dsl.rs:190-212 | The loop computes the tokens of the quote-aware scanner. |
| SearchTokens.TokensSpellTheQuery | core/src/db/operations/search_dsl.rs:190-212 | No token is empty or holds a quote, and together they spell the query without quotes and without the whitespace outside them. |
| SearchTokens.EndsQuotedIff | core/src/db/operations/search_dsl.rs:193-197 | Scanning ends inside quotes exactly when the number of quotes is odd. |
| SearchTokens.NoTokensIff | core/src/db/operations/search_dsl.rs:190-212 | A query has no token exactly when it is made of quotes and the whitespace outside them. |
| SearchQueries.Parse | core/src/db/operations/search_dsl.rs:23-87 | The token loop with its quotes-only special case, clause by clause. |
| SearchQueries.StructuredTerm | src-tauri/src/http_api/router/search_query.rs:41-50 | A value is refused exactly if it holds a quote; any other comes back from the tokenizer as the single token of field and value, whitespace and all. |
| SearchQueries.Compose | src-tauri/src/http_api/router/search_query.rs:3-39 | Free query, type, instrument, key, tags and tempo range in that order joined by spaces, or an error exactly when some value holds a quote. |
| SearchRoundTrip.TokensRoundTripIff | src-tauri/src/http_api/router/search_query.rs:3-50 | Tokenizing the composed string gives the free query's tokens and one token per clause exactly when the free query has an even number of quotes or there is no clause. |
| SearchRoundTrip.StrayQuoteLosesTheClause | src-tauri/src/http_api/router/search_query.rs:3-50 | A concrete request whose query ends in a stray quote: its type clause is swallowed by the token of the query. |
| SearchMeaning.RangeReadsBackIff | core/src/db/operations/search_dsl.rs:214-238 | The text form of a tempo range reads back exactly when its lower bound is absent or not negative, which request validation guarantees. |
| SearchMeaning.ParseComposed | src-tauri/src/http_api/router/search_query.rs:3-50 | Parsing the composed string applies the structured clauses in order to what the free query says. |
| SearchMeaning.StrayQuoteLosesTheType | src-tauri/src/http_api/router/search_query.rs:41-50 | The same request parsed back: no type is asked for, and the clause is part of a word to match. |
| SearchMeaning.AllOverriddenIsNarrowed | core/src/db/operations/search_dsl.rs:49-83 | For every request, type, instrument, key and range replace the query's own, even by nothing, and tags are appended in order; a blank value instead leaves the query's own and adds its clause to the words of the text. |
| SearchMeaning.AllOverriddenIsNarrowedIff | core/src/db/operations/search_dsl.rs:53-57 | The clauses say what the structured fields say, and nothing else, exactly when no field is given blank. |
| SearchMeaning.BlankTypeIsSearchedAsText | core/src/db/operations/search_dsl.rs:53-57 | A request with a blank type and nothing else asks for no type and for samples that match the word made of its clause. |
| SearchMeaning.NoBlankValuesIff | core/src/db/operations/search_dsl.rs:53-57 | Blank values leave no word behind, and leaving them out changes nothing, exactly when there is none. |
| SearchMeaning.MeaningIsPreserved | core/src/db/operations/search_dsl.rs:89-163 | For every request with balanced quotes a sample matches the re-parsed string exactly when it satisfies the query's words and tags, each field that is not blank in place of the query's (its tempo between the bounds, both included), and the words that blank fields are searched for as. |
| SearchMeaning.OwnIsTheQueryParsedAloneIff | core/src/db/operations/search_dsl.rs:35-39 | What the free query contributes is how it is parsed alone, exactly when it is not made of quotes only. |
| SearchMeaning.QuotesOnlyQuerySaysNothing | core/src/db/operations/search_dsl.rs:35-39 | Two quotes are searched for as text alone, and beside a type clause leave no text to match. |
| SearchMeaning.WordNarrows | core/src/db/operations/search_dsl.rs:42-52 | A word restricts the search to samples it matches, with a minus sign to those it does not. |
| SearchMeaning.TagNarrows | core/src/db/operations/search_dsl.rs:81 | A tag clause restricts the search to samples with the tag, with a minus sign to those without. |
| SearchMeaning.KeyNamesAreStable | core/src/db/operations/search_dsl.rs:292-321 | The twelve key names normalise to themselves, and normalising a key is idempotent. |
| SearchClauses.BpmNarrows | core/src/db/operations/search_dsl.rs:214-255 | A tempo clause asks for a known tempo between its bounds, both included, either of which may be missing. |
| SearchClauses.SingleBpmNarrows | core/src/db/operations/search_dsl.rs:223-227 | A single number asks for exactly that tempo. |
| SearchClauses.LabelIsItsLetters | core/src/db/operations/search_dsl.rs:285-290 | Of a playback label only the letters count, in either case and with any dashes, underscores and spaces; one, shot and oneshot mean the same. |
| SearchClauses.TypeNarrows | core/src/db/operations/search_dsl.rs:111-123 | A type clause asks for loops or for one-shots by the playback type or the sample type, however any of them is spelled; another value asks for nothing. |
| SearchClauses.KeyIsItsPitch | core/src/db/operations/search_dsl.rs:292-321 | A key is read as its semitone above C, a sharp one up and a flat one down, in either case and with or without an m; exactly E#, B#, Cb and Fb are not read. |
| SearchClauses.KeyNarrows | core/src/db/operations/search_dsl.rs:131-141 | A key clause asks for samples of the same pitch, however either key is spelled. |
| SearchClauses.InstrumentNarrows | core/src/db/operations/search_dsl.rs:125-129 | An instrument clause asks for the same instrument up to case and surrounding space. |
| SearchClauses.FullWidthIsTheSame | core/src/db/operations/search_dsl.rs:261-275 | Text in full-width characters normalises to what the ASCII text does. |
| SearchClauses.NamesMeanTheSame | core/src/db/operations/search_dsl.rs:59-83 | The several names of a field mean the same clause. |
| SearchClauses.NameIsItsLetters | core/src/db/operations/search_dsl.rs:257-259 | Capitals, dashes and underscores in a field name do not matter. |
| SearchClauses.OtherNames | core/src/db/operations/search_dsl.rs:81-82 | A favourite clause is ignored, and one under any other name is a word of the text. |
| SearchClauses.NegatedFieldsSayNothing | core/src/db/operations/search_dsl.rs:60-79 | A negated tempo, type, instrument or key clause changes nothing. |
| SearchClauses.UnreadableTakesBack | core/src/db/operations/search_dsl.rs:60-79 | A key or tempo that cannot be read takes back an earlier one. |
| SearchLocales.LawsCanBeMet | core/src/db/operations/search_dsl.rs:229-238 | ASCII lower-casing with decimal numbers meets every law used of lower-casing and of numbers, for every request with whole-number bounds. |
| SimilarSamples.Words | core/src/manager/samples.rs:329-332 | The blob cut into its four-byte words, none lost. |
| SimilarSamples.FetchSimilar | core/src/manager/samples.rs:97-141 | The doubling search returns the first limit rows of the filtered ranking, terminates, and fetches fewer than three times the rows of the ranking. |
| SimilarSamples.FindSimilarSamples | core/src/manager/samples.rs:86-142 | A missing sample, a missing and an undecodable embedding and a limit outside 1..100 are each reported exactly when they are the first to apply; otherwise the filtered ranking is answered. |
| SimilarSamples.FilterIsExactlyTheKeptRows | core/src/manager/samples.rs:106-119 | The filter keeps exactly the rows that are not the source and not, on request, of the same content. |
| SimilarSamples.FilterInOrder | core/src/manager/samples.rs:106-119 | The filter keeps, in ranking order and each once, exactly the rows that are not the source and not, on request, of the same known content hash. |
| SimilarSamples.NothingBetterIsLeftOut | core/src/manager/samples.rs:97-141 | A kept row is left out only in favour of limit better ranked ones. |
| CollectionNames.NormalizeName | core/src/db/operations/collections.rs:15-42 | The loop yields the lower-cased words of the trimmed name joined by single spaces, or an error for a blank name. |
| CollectionNames.NormalFormIsTheWords | core/src/db/operations/collections.rs:14-42 | The normal form is the words of the name joined by single spaces, none exactly if it has no word. |
| CollectionNames.SpaceSeparates | core/src/db/operations/collections.rs:19-27 | Any whitespace character separates the words before it from those after it. |
| CollectionNames.VisibleTextIsOneWord | core/src/db/operations/collections.rs:29-32 | Text without whitespace is one word with every character lower-cased. |
| CollectionNames.NormalizedTwice | core/src/db/operations/collections.rs:14-42 | Normalising is idempotent, so a stored name finds itself. |
| CollectionTables.AddRefinesTheList | core/src/db/operations/collections.rs:59-118 | Adding fails exactly for a bad count, a blank name or a missing id and then changes nothing; otherwise the new ids are appended in order of first occurrence, the count is the growth, and other lists and all details are untouched. |
| CollectionTables.AddFindsTheList | core/src/db/operations/collections.rs:59-86 | The list is that of the normalised name, made under an id of its own exactly if there was none, and every other name keeps its id; each refusal has its cause. |
| CollectionTables.FirstOccurrencesInOrder | core/src/db/operations/collections.rs:99-111 | The new ids stand in the order of the request, each once, where it occurs first, and only if it was not there. |
| CollectionTables.NextPositionFollows | core/src/db/operations/collections.rs:91-95 | A new row comes one place after the last of its collection, or first. |
| CollectionTables.AppendUniqueAppendsFirstOccurrences | core/src/db/operations/collections.rs:99-111 | Appending without duplicates is appending the first occurrences of what is not yet there. |
| CollectionTables.ListingIsInsertionOrder | core/src/db/operations/collections.rs:120-152 | Ordering by position lists the samples in the order they were added. |
| CollectionTables.OrderingSorts | core/src/db/operations/collections.rs:9-9 | Ordering by position sorts any rows and keeps every one. |
| CollectionTables.RemoveRefinesTheList | core/src/manager/discovery/projects.rs:66-76 | Removal takes the id out of its one list and its details with it. |
| CollectionTables.RemoveIdInOrder | core/src/manager/discovery/projects.rs:66-76 | What is left of a list is every other id in its order. |
| CollectionTables.DeleteRefinesTheList | core/src/db/schema.rs:324-325 | Deleting a sample takes it out of every list, with its own details and nobody else's. |
| CollectionTables.ShelfFindsTheList | core/src/manager/discovery/projects.rs:6-18 | A shelf is refused exactly for a blank or overlong name, is the collection of its normalised name otherwise, and touches no member. |
| CollectionTables.UpdateRefinesTheList | core/src/manager/discovery/projects.rs:20-64 | An update appends the member if new and sets its detail; add_only on an existing member changes nothing. |
| CollectionTables.UpdateRefused | core/src/manager/discovery/projects.rs:24-38 | A note that is too long, an unknown collection and an unknown sample are each refused exactly when they are the first to apply. |
| CollectionTables.NextKeepsInv | core/src/manager/discovery/projects.rs:20-76 | Every operation keeps positions increasing with insertion and distinct, the foreign keys, details only for members, and an adoption time exactly for adopted rows. |
| CollectionTables.RunKeepsInv | core/src/manager/discovery/projects.rs:20-76 | The same in every state reachable from the empty tables. |
| CollectionTables.AdoptionStep | core/src/manager/discovery/projects.rs:46-62 | A row that stays adopted keeps its time, a row that becomes adopted is stamped. |
| CollectionTables.AdoptedSinceStreakBegan | core/src/manager/discovery/projects.rs:46-62 | In every run the adoption time of a member is that of the update that began its current unbroken run of adopted states. |
| CollectionLibrary.Library.InsertMember | core/src/db/operations/collections.rs:99-111 | A primary-key conflict inserts nothing. |
| CollectionLibrary.Library.InsertMembers | core/src/db/operations/collections.rs:91-111 | Counting the position on in the loop gives what reading the maximum before each insert would. |
| CollectionLibrary.Library.AddSamplesToCollection | core/src/db/operations/collections.rs:59-118 | The whole transaction: its result and the tables after it, unchanged on failure. |
| CollectionLibrary.Library.CreateProjectShelf | core/src/manager/discovery/projects.rs:6-18 | A shelf is the collection of the normalised name, created unless it exists; a blank or overlong name changes nothing. |
| CollectionLibrary.Library.UpdateProjectMember | core/src/manager/discovery/projects.rs:20-64 | The whole transaction: member insert, add_only exit, and the upsert of status, note and adoption time. |
| CollectionLibrary.Library.RemoveProjectMember | core/src/manager/discovery/projects.rs:66-76 | The delete and its cascade. |
| TempoMaps.TicksToSeconds | core/src/analysis/midi.rs:161-189 | For every sorted map the result is the per-tick sum of the active tempo, plus a second copy of the last segment when an event sits at or after the target. |
| TempoMaps.ExactIff | core/src/analysis/midi.rs:175-186 | The plain sum is returned exactly when no event sits at or after the target, the target is zero, or the tempo there is zero. |
| TempoMaps.SegmentOf | core/src/analysis/midi.rs:170-186 | A segment of constant tempo lasts its length times its tempo. |
| TempoMaps.CollectTempos | core/src/analysis/midi.rs:71-116 | One pass gathers all tempo events at their absolute ticks and the length of the longest track. |
| TempoMaps.TicksAddUp | core/src/analysis/midi.rs:71-74 | The ticks of a track are the sum of its deltas. |
| TempoMaps.TemposInOrder | core/src/analysis/midi.rs:75-82 | The tempo events of a track stand in its order, each at the sum of the deltas up to it. |
| TempoMaps.TracksInOrder | core/src/analysis/midi.rs:71-116 | The map holds the events of all tracks, track by track, and the file is exactly as long as its longest track. |
| TempoMaps.GoverningIsLatest | core/src/analysis/midi.rs:118-119 | The governing event is the latest at or before the tick, of several on one tick the last in the file, and there is none exactly if all come later. |
| TempoMaps.DefaultTempo | core/src/analysis/midi.rs:121-125 | A file that sets no tempo plays two quarter notes a second, whatever its resolution. |
| TempoMaps.AllTemposWithin | core/src/analysis/midi.rs:71-116 | No event lies beyond the longest track. |
| TempoMaps.SortedMapGoverns | core/src/analysis/midi.rs:118-119 | A lookup in the stably sorted map finds the event governing the tick in the file: the latest tick, then the latest in file order. |
| TempoMaps.Duration | core/src/analysis/midi.rs:71-125 | The duration of a file is the stated one plus the double count, and the stated one exactly when no tempo event sits on the last tick, time stands still there, or the file gives no ticks per quarter. |
| TempoMaps.DurationExactIff | core/src/analysis/midi.rs:71-186 | The same for the seconds computed, for every file and resolution. |
| TempoMaps.LastTickCountsTwice | core/src/analysis/midi.rs:175-186 | A concrete file whose duration comes out doubled. |
| Promotions.PromotionIsAllOrNothing | src-tauri/src/providers/promotion.rs:50-89 | For every failure point and every concurrent addition no old entry changes; success gives old root, others' additions and staged files exactly; failure leaves of the own files only those whose deletion failed. |
| Promotions.FilesBeforeTheFailureAreLost | src-tauri/src/providers/promotion.rs:40-89 | With the first failing turn known, exactly the files before it have left staging, and one of them is in neither directory exactly if its deletion succeeds and nobody uses its name again. |
| Promotions.UnfailedIff | src-tauri/src/providers/promotion.rs:55-63 | The loop has not failed exactly when every file so far could be opened, created under an unused name, copied and removed. |
| Promotions.RefusedBeforeCopying | src-tauri/src/providers/promotion.rs:50-119 | A staged entry that is no file, and a clash of portable names among the staged files or with the root, are refused before anything changes, and a success had neither. |
| Promotions.FailureSays | src-tauri/src/providers/promotion.rs:68-89 | The error is a conflict exactly if the first failing turn found its name in use, and an I/O error otherwise. |
| Promotions.LeftoversAreBeginnings | src-tauri/src/providers/promotion.rs:68-89 | Whatever a failed promotion leaves of its own files is a beginning of the staged file of that name. |
| Promotions.StagingSurvivesIff | src-tauri/src/providers/promotion.rs:50-66 | A failed promotion leaves every staged file in place exactly if listing, preflight or the first file failed; with at most one staged file it always does. |
| Promotions.FirstFileIsLost | src-tauri/src/providers/promotion.rs:55-63 | A concrete failure after which a file is in neither directory. |
| Promotions.ImportDirectories.PreflightCollisions | src-tauri/src/providers/promotion.rs:104-119 | The growing name set finds a collision exactly when two portable names meet, staged or existing. |
| Promotions.ImportDirectories.CopyWithoutOverwrite | src-tauri/src/providers/promotion.rs:68-89 | Creates exclusively, records what it created, and may leave a partial file on failure. |
| Promotions.ImportDirectories.RollBack | src-tauri/src/providers/promotion.rs:40-48 | Deletes every recorded file whose deletion succeeds. |
| Promotions.ImportDirectories.PromoteAll | src-tauri/src/providers/promotion.rs:55-63 | The file loop stops at the first failure. |
| Promotions.ImportDirectories.PromoteApprovedFiles | src-tauri/src/providers/promotion.rs:50-66 | Listing, preflight, the loop, and the rollback on any early return. |
| Scans.InsertedPaths | core/src/manager/scan.rs:127-141 | Which paths end up in the table and how many were added is the same for every arrival order. |
| Scans.OrderDoesNotMatter | core/src/manager/scan.rs:104-149 | Any two arrival orders end in the same rows and count and fail together, if the analyses of each new path agree. |
| Scans.OrderDoesNotMatterIff | core/src/manager/scan.rs:104-149 | Every arrival order ends in the same rows and count exactly when the analyses of each new path agree. |
| Scans.ScanAddsEveryNewFileOnceIff | core/src/manager/scan.rs:30-149 | For every arrival order as many rows are added as there are analysable new files exactly when at most one of these lacks a textual name and no earlier scan stored one; the paths of all analysable files end in the table, old rows stay, and each named file has its own data. |
| Scans.NewFilesInOrder | core/src/manager/scan.rs:30-60 | Exactly the files whose path is not stored are analysed, in the order of discovery. |
| Scans.UnnamedFilesCollide | core/src/manager/analyze.rs:173 | Two files whose names are not valid text: one row instead of two, and it is that of the earlier arrival. |
| Scans.Database.Scan | core/src/manager/scan.rs:16-165 | A fatal result, a refused begin or a refused commit leaves the committed rows as they were; otherwise they are complete. The transaction is left open exactly by a refused commit. |

## Left out

- The vocoder's phase accumulation and bin remapping (ui/public/pitch-processor.js:151-201): an arbitrary function from
  phase state and spectrum to phase state and lower bins, so its sound quality is not a claim.
- Passthrough copying and the loop over channels of the worklet; one channel is modelled.
- PitchSignals.UnchangedSignal: speaks of blocks of 128 samples, the render quantum of Web Audio. With longer blocks
  the source lays several frames over one and the same window, which `PitchChannel.FrameByFrame` describes.
- Floating-point rounding, NaN and negative zero.
- The spectral flux of the tempo estimate: the onset envelope is an arbitrary function of the samples.
- The renderer's listener for wake events and the wake callback of the handlers: they carry no state of the queue.
- Request parsing, schemas, authentication, routing and response bodies of the HTTP API.
- Window mode of the provider browser, history of URLs and status texts; only the embedded mode is modelled.
- `clearActiveProvider` and `changeMode` forget the active provider in the continuation of their own close of all
  webviews, which runs before the next operation begins. The model does not remember which close it was: it lets that
  happen whenever nothing runs and nothing is open (`ProviderLifecycle.ForgettingFollowsTheClose`), which includes
  every real order.
- The credential lookup, the error texts and the external pages of the Freesound workspace.
- The body of `search_by_embedding`: a fixed ranking whose first k rows it returns. Database errors are passed through.
- Fuzzy matching of search words, and the `favorite` clauses the database ignores.
- Smart collections, usage events, the discovery queries, and the re-scan of all samples.
- Note statistics, time signature and key estimate of MIDI files.
- Archive extraction and the portable name key, which is an arbitrary function of the name. Staged files are promoted
  in one arbitrary order, of which the sorted one is a case.
- Progress reporting of the scan, and its analysis threads beyond delivering each new file's result once.
- Heuristic classifiers, audio decoding, waveform peaks, keyboard, drag and drop, player and React rendering.
