/** What the provider browser gets done once the UI leaves it alone: shown providers open, and closes close. */
module ProviderProgress {
  import opened Options
  import opened ProviderLifecycle

  // ---------- Undisturbed runs ----------

  /** No event of the UI but a frame that was scheduled before; every backend command succeeds. */
  predicate Undisturbed(events: seq<Event>) {
    forall i :: 0 <= i < |events| ==> events[i] in [Frame, Begin, Settle(true)]
  }

  /** The same, but commands may fail. */
  predicate Quiet(events: seq<Event>) {
    forall i :: 0 <= i < |events| ==> events[i].Frame? || events[i].Begin? || events[i].Settle?
  }

  /** Everything queued, scheduled and running is over. */
  predicate Drained(s: State) { s.awaiting.Nothing? && s.queue == [] && s.reconciles.frame.None? }

  function Rest(a: Await): nat {
    match a
    case Nothing => 0
    case Closing(_, Finish) => 1
    case Closing(_, _) => 4
    case ClosingAll(_) => 3
    case Opening(_, _) => 2
    case ClosingStale(_) => 1
    case SettingBounds(_) => 2
    case Showing(_) => 1
    case Navigating => 1
  }

  /** A bound for the steps that are left. */
  function StepsLeft(s: State): nat { 5 * |s.queue| + (if s.reconciles.frame.Some? then 6 else 0) + Rest(s.awaiting) }

  lemma BeginUsesSteps(s: State)
    requires s.awaiting.Nothing? && s.queue != []
    ensures StepsLeft(BeginNext(s)) < StepsLeft(s)
  {
    hide CanReconcile, Target;
  }

  lemma SettleUsesSteps(s: State, succeeded: bool)
    requires !s.awaiting.Nothing?
    ensures StepsLeft(Settled(s, succeeded)) < StepsLeft(s)
  {
    hide CanReconcile, Without;
  }

  lemma QuietStepUsesSteps(s: State, e: Event)
    requires Possible(s, e) && (e.Frame? || e.Begin? || e.Settle?)
    ensures StepsLeft(Next(s, e)) < StepsLeft(s)
  {
    if e.Begin? { BeginUsesSteps(s); } else if e.Settle? { SettleUsesSteps(s, e.succeeded); }
  }

  /** Left alone, the browser is drained after a bounded number of steps. */
  lemma {:induction false} QuietRunsEnd(s: State, events: seq<Event>, t: State)
    requires Quiet(events) && Reaches(s, events, t)
    ensures |events| + StepsLeft(t) <= StepsLeft(s)
    ensures !Drained(t) ==> Possible(t, Frame) || Possible(t, Begin) || Possible(t, Settle(true))
    decreases |events|
  {
    hide Next, StepsLeft;
    if events == [] {
    } else {
      QuietStepUsesSteps(s, events[0]);
      QuietRunsEnd(Next(s, events[0]), events[1..], t);
    }
  }

  // ---------- The provider that is shown is opened ----------

  predicate Shown(ui: Ui, p: Provider) { CanReconcile(ui, ui.intent, p) }

  /** The operation opens p when it runs under the present intent. */
  predicate Opens(op: Operation, s: State) { Live(op, s.reconciles) || op == RootTransition(s.ui.intent) }

  /** The last queued operation opens, and no earlier one is a reconcile that can still run. */
  ghost predicate LastOpens(s: State) {
    && s.queue != [] && Opens(s.queue[|s.queue| - 1], s)
    && (forall k :: 0 <= k < |s.queue| - 1 ==> !Live(s.queue[k], s.reconciles))
    && (s.queue[|s.queue| - 1].Reconcile? ==> s.running != s.reconciles.pending)
  }

  predicate ReopensNow(reopen: Option<Reopen>, ui: Ui, p: Provider) { reopen == Some(Reopen(ui.intent, p)) }

  /** The running operation is the last one and ends with p open. */
  predicate OpensNow(s: State, p: Provider) {
    && s.queue == []
    && match s.awaiting
       case Nothing => s.refs.openedRef == Some(p)
       case Closing(_, next) => next.ThenCloseAll? && ReopensNow(next.reopen, s.ui, p)
       case ClosingAll(reopen) => ReopensNow(reopen, s.ui, p)
       case Opening(intent, provider) => intent == s.ui.intent && provider == p
       case SettingBounds(provider) => provider == p
       case Showing(provider) => provider == p
       case _ => false
  }

  /** p is shown and its opening is still to come, under way, or done. */
  ghost predicate WillBeOpen(s: State, p: Provider) {
    && Shown(s.ui, p)
    && ((s.reconciles.frame.Some? && s.reconciles.frame == s.reconciles.pending) ||
        (s.reconciles.frame.None? && (LastOpens(s) || OpensNow(s, p))))
  }

  /** The effect of a shown view schedules a reconcile, unless the root change is handled by a transition. */
  lemma EffectSchedules(s: State, changed: bool, p: Provider)
    requires s.ui.active == Some(p) && s.ui.web && !s.ui.settingsOpen && s.ui.viewport
    ensures var t := Next(s, Effect(changed));
            && t.ui == s.ui.(intent := s.ui.intent + 1, leaving := t.ui.leaving)
            && if changed && HasDownloadRootChange(s)
               then t.queue == s.queue + [RootTransition(t.ui.intent)] && t.ui.leaving == s.ui.leaving
               else && t.reconciles.pending.Some? && t.reconciles.frame == t.reconciles.pending && t.queue == s.queue
                    && t.ui.leaving == if s.ui.leaving.HasLeft? then NotLeaving else s.ui.leaving
  {
  }

  lemma FrameWillOpen(s: State, p: Provider)
    requires Inv(s) && WillBeOpen(s, p) && s.reconciles.frame.Some?
    ensures WillBeOpen(Next(s, Frame), p)
  {
    hide Mirrors, NoStraySurface, DoomedCloses;
    var t := Next(s, Frame);
    forall k | 0 <= k < |s.queue| ensures !Live(t.queue[k], t.reconciles) {
      assert t.queue[k] == s.queue[k];
    }
  }

  lemma ShownIsActive(ui: Ui, p: Provider)
    requires Shown(ui, p)
    ensures ui.active == Some(p) && ui.mounted && ui.viewport
  {
  }

  /** What starts a reconcile for the present intent ends with p open. */
  lemma BodyOpens(s: State, updateBounds: bool, p: Provider)
    requires Shown(s.ui, p) && s.queue == [] && s.refs.openingRef.None?
    ensures OpensNow(ReconcileBody(s, s.ui.intent, updateBounds), p)
  {
    hide CanReconcile;
    assert s.ui.active == Some(p) && s.ui.mounted by { ShownIsActive(s.ui, p); }
  }

  lemma NothingOpeningNow(s: State)
    requires Inv(s) && s.awaiting.Nothing?
    ensures s.refs.openingRef.None?
  {
  }

  lemma BodyKeeps(s: State, intent: nat, updateBounds: bool)
    ensures var t := ReconcileBody(s, intent, updateBounds);
            && t.ui == s.ui && t.queue == s.queue && t.reconciles.frame == s.reconciles.frame
            && t.reconciles == s.reconciles.(pending := t.reconciles.pending)
            && (t.reconciles.pending == s.reconciles.pending ||
                (t.reconciles.pending.None? && s.running == s.reconciles.pending))
            && (t.running == s.running || t.running.None?)
  {
    hide CanReconcile;
  }

  lemma LastBeginOpens(s0: State, p: Provider)
    requires Inv(s0) && Shown(s0.ui, p) && s0.awaiting.Nothing? && |s0.queue| == 1 && Opens(s0.queue[0], s0)
    ensures OpensNow(BeginNext(s0), p) && BeginNext(s0).ui == s0.ui &&
            BeginNext(s0).reconciles.frame == s0.reconciles.frame
  {
    hide Inv, NoStraySurface, DoomedCloses, IdentitiesOk, ReconcileBody, CanReconcile, Shown;
    ShownIsActive(s0.ui, p);
    NothingOpeningNow(s0);
    var s := s0.(queue := s0.queue[1..]);
    if s0.queue[0].Reconcile? {
      var t := s.(running := Some(s0.queue[0].identity));
      BodyOpens(t, s0.queue[0].updateBounds, p);
      BodyKeeps(t, t.ui.intent, s0.queue[0].updateBounds);
    }
  }

  /** Any operation that is not yet the last one leaves the last one as it is. */
  lemma EarlierBeginKeeps(s0: State)
    requires Inv(s0) && s0.awaiting.Nothing? && s0.queue != [] && !Live(s0.queue[0], s0.reconciles)
    ensures var t := BeginNext(s0);
            && t.ui == s0.ui && t.queue == s0.queue[1..] && t.reconciles == s0.reconciles && t.running.None?
  {
    hide Mirrors, NoStraySurface, DoomedCloses, CanReconcile, Target, ReconcileBody;
  }

  lemma LastStays(queue: seq<Operation>, r: Reconciles)
    requires |queue| > 1
    ensures queue[1..] != [] && queue[1..][|queue| - 2] == queue[|queue| - 1]
    ensures (forall k :: 0 <= k < |queue| - 1 ==> !Live(queue[k], r)) ==>
              !Live(queue[0], r) && forall k :: 0 <= k < |queue[1..]| - 1 ==> !Live(queue[1..][k], r)
  {
  }

  lemma NotDone(s: State, p: Provider)
    requires s.queue != []
    ensures !OpensNow(s, p)
  {
  }

  lemma HeadIsNotLive(s: State)
    requires Inv(s) && s.queue != [] && s.reconciles.frame.Some?
    ensures !Live(s.queue[0], s.reconciles)
  {
  }

  lemma BeginWillOpen(s: State, p: Provider)
    requires Inv(s) && WillBeOpen(s, p) && s.awaiting.Nothing? && s.queue != []
    ensures WillBeOpen(BeginNext(s), p)
  {
    hide Inv, Shown, BeginNext, OpensNow;
    if s.reconciles.frame.Some? {
      HeadIsNotLive(s);
      EarlierBeginKeeps(s);
    } else if LastOpens(s) {
      if |s.queue| == 1 {
        LastBeginOpens(s, p);
      } else {
        LastStays(s.queue, s.reconciles);
        EarlierBeginKeeps(s);
      }
    } else {
      NotDone(s, p);
    }
  }

  /** A running operation that succeeds keeps the UI, the queue and a pending reconcile that is not its own. */
  lemma SettleKeeps(s: State)
    requires !s.awaiting.Nothing?
    ensures var t := Settled(s, true);
            && t.ui == s.ui && t.queue == s.queue && t.reconciles.frame == s.reconciles.frame
            && t.reconciles == s.reconciles.(pending := t.reconciles.pending)
            && (t.reconciles.pending == s.reconciles.pending ||
                (t.reconciles.pending.None? && s.running == s.reconciles.pending))
            && (t.running == s.running || t.running.None?)
  {
    hide CanReconcile, Without, ReconcileBody;
    if s.awaiting.ClosingAll? && s.awaiting.reopen.Some? {
      BodyKeeps(s.(backend := {}, refs := NO_REFS), s.awaiting.reopen.value.intent, false);
    }
  }

  lemma SettleOpensNow(s: State, p: Provider)
    requires Inv(s) && Shown(s.ui, p) && !s.awaiting.Nothing? && OpensNow(s, p)
    ensures OpensNow(Settled(s, true), p)
  {
    hide NoStraySurface, DoomedCloses, IdentitiesOk;
  }

  lemma RunningIsNotFramed(s: State)
    requires Inv(s) && s.reconciles.frame.Some?
    ensures s.running != s.reconciles.frame
  {
  }

  lemma SettleWillOpen(s: State, p: Provider)
    requires Inv(s) && WillBeOpen(s, p) && !s.awaiting.Nothing?
    ensures WillBeOpen(Settled(s, true), p)
  {
    hide Inv, Shown, Settled, OpensNow;
    SettleKeeps(s);
    if s.reconciles.frame.Some? {
      RunningIsNotFramed(s);
    } else if LastOpens(s) {
    } else {
      SettleOpensNow(s, p);
    }
  }

  lemma BeginKeepsUi(s: State)
    requires s.awaiting.Nothing? && s.queue != []
    ensures BeginNext(s).ui == s.ui
  {
    hide CanReconcile, Target;
  }

  lemma StepWillOpen(s: State, p: Provider, e: Event)
    requires Inv(s) && WillBeOpen(s, p) && Possible(s, e) && e in [Frame, Begin, Settle(true)]
    ensures WillBeOpen(Next(s, e), p) && Next(s, e).ui == s.ui
  {
    hide Inv, WillBeOpen, BeginNext, Settled;
    match e
    case Frame => FrameWillOpen(s, p);
    case Begin => BeginWillOpen(s, p); BeginKeepsUi(s);
    case Settle(_) => SettleWillOpen(s, p); SettleKeeps(s);
    case _ =>
  }

  lemma {:induction false} RunWillOpen(s: State, p: Provider, events: seq<Event>, t: State)
    requires Inv(s) && WillBeOpen(s, p) && Undisturbed(events) && Reaches(s, events, t)
    ensures Inv(t) && WillBeOpen(t, p) && t.ui == s.ui
    decreases |events|
  {
    hide Inv, WillBeOpen, Next, Possible;
    if events == [] {
    } else {
      NextKeepsInv(s, events[0]);
      StepWillOpen(s, p, events[0]);
      RunWillOpen(Next(s, events[0]), p, events[1..], t);
    }
  }

  /** The effect of a shown view, whatever is queued or running, opens or keeps the provider that is shown. */
  lemma EffectWillOpen(s: State, changed: bool, p: Provider)
    requires Inv(s) && s.ui.mounted && s.ui.active == Some(p)
    requires s.ui.web && !s.ui.settingsOpen && s.ui.viewport && !s.ui.leaving.IsLeaving?
    requires !s.ui.leaving.NotLeaving? ==> !(changed && HasDownloadRootChange(s))
    ensures WillBeOpen(Next(s, Effect(changed)), p)
  {
    hide Mirrors, NoStraySurface, DoomedCloses, HasDownloadRootChange;
    EffectSchedules(s, changed, p);
    AdvanceIntentKeepsInv(s);
  }

  /** A transition to the new download root is still to come, under way, or done: the latest open carried that root. */
  predicate Reroots(s: State, p: Provider) {
    || s.issuedRoot == s.ui.downloadRoot
    || (s.reconciles.frame.None? &&
        if s.queue != [] then s.queue[|s.queue| - 1] == RootTransition(s.ui.intent)
        else match s.awaiting
          case Closing(_, next) => next.ThenCloseAll? && ReopensNow(next.reopen, s.ui, p)
          case ClosingAll(reopen) => ReopensNow(reopen, s.ui, p)
          case _ => false)
  }

  lemma EffectReroots(s: State, p: Provider)
    requires HasDownloadRootChange(s)
    ensures Reroots(Next(s, Effect(true)), p)
  {
  }

  lemma DrainedIsRerooted(t: State, p: Provider)
    requires Reroots(t, p) && Drained(t)
    ensures t.issuedRoot == t.ui.downloadRoot
  {
  }

  lemma DrainedIsOpen(t: State, p: Provider)
    requires WillBeOpen(t, p) && Drained(t)
    ensures t.refs.openedRef == Some(p) && t.ui.active == Some(p)
  {
  }

  lemma FinishedIssuesNothing(s: State)
    ensures Finished(s).issuedRoot == s.issuedRoot && Finished(s).awaiting.Nothing?
  {
  }

  /** An open command always carries the present root. */
  lemma BodyIssuesRoot(s: State, intent: nat, updateBounds: bool)
    ensures var t := ReconcileBody(s, intent, updateBounds);
            && (t.issuedRoot == s.issuedRoot || t.issuedRoot == s.ui.downloadRoot)
            && (t.awaiting.Opening? ==> t.issuedRoot == s.ui.downloadRoot)
  {
    hide CanReconcile, Finished;
    FinishedIssuesNothing(s);
  }

  lemma FinishedKeeps(s: State)
    ensures var t := Finished(s);
            && t.ui == s.ui && t.queue == s.queue && t.issuedRoot == s.issuedRoot && t.awaiting.Nothing?
            && t.reconciles.frame == s.reconciles.frame
  {
  }

  lemma BeginReroots(s0: State, p: Provider)
    requires Shown(s0.ui, p) && Reroots(s0, p) && s0.awaiting.Nothing? && s0.queue != []
    ensures Reroots(BeginNext(s0), p)
  {
    hide ReconcileBody, CanReconcile, Shown, Finished;
    ShownIsActive(s0.ui, p);
    var op, s := s0.queue[0], s0.(queue := s0.queue[1..]);
    FinishedKeeps(s);
    if op.Reconcile? {
      var t := s.(running := Some(op.identity));
      BodyKeeps(t, s.ui.intent, op.updateBounds);
      BodyIssuesRoot(t, s.ui.intent, op.updateBounds);
      FinishedKeeps(t);
    }
    if |s0.queue| > 1 { assert s0.queue[1..][|s0.queue| - 2] == s0.queue[|s0.queue| - 1]; }
  }

  lemma FinishedKeepsAll()
    ensures forall s :: Finished(s).ui == s.ui && Finished(s).queue == s.queue && Finished(s).issuedRoot == s.issuedRoot
  {
  }

  lemma FreshBodyOpens(s: State, p: Provider)
    requires Shown(s.ui, p) && s.refs == NO_REFS
    ensures ReconcileBody(s, s.ui.intent, false).awaiting.Opening?
  {
  }

  lemma SettleReroots(s: State, p: Provider)
    requires Shown(s.ui, p) && Reroots(s, p) && !s.awaiting.Nothing?
    ensures Reroots(Settled(s, true), p)
  {
    hide ReconcileBody, CanReconcile, Shown, Finished, Without;
    ShownIsActive(s.ui, p);
    SettleKeeps(s);
    FinishedKeepsAll();
    if s.awaiting.ClosingAll? && s.awaiting.reopen.Some? {
      var t, r := s.(backend := {}, refs := NO_REFS), s.awaiting.reopen.value;
      BodyKeeps(t, r.intent, false);
      BodyIssuesRoot(t, r.intent, false);
      if ReopensNow(s.awaiting.reopen, s.ui, p) { FreshBodyOpens(t, p); }
    }
  }

  lemma StepReroots(s: State, p: Provider, e: Event)
    requires WillBeOpen(s, p) && Reroots(s, p) && Possible(s, e) && e in [Frame, Begin, Settle(true)]
    ensures Reroots(Next(s, e), p)
  {
    hide BeginNext, Settled, LastOpens, OpensNow, Shown;
    match e
    case Frame =>
    case Begin => BeginReroots(s, p);
    case Settle(_) => SettleReroots(s, p);
    case _ =>
  }
  /** Selecting the provider again while it is being opened: the open is overtaken, and nothing replaces it. */

  lemma {:induction false} RunReroots(s: State, p: Provider, events: seq<Event>, t: State)
    requires Inv(s) && WillBeOpen(s, p) && Reroots(s, p) && Undisturbed(events) && Reaches(s, events, t)
    ensures Reroots(t, p)
    decreases |events|
  {
    hide Inv, WillBeOpen, Reroots, Next, Possible;
    if events == [] {
    } else {
      NextKeepsInv(s, events[0]);
      StepWillOpen(s, p, events[0]);
      StepReroots(s, p, events[0]);
      RunReroots(Next(s, events[0]), p, events[1..], t);
    }
  }

  /**
   The provider that is shown ends up open: after the effect of a shown view, whatever was queued or running before,
   the browser comes to rest with the webview of the active provider open and no other; and if its download
   root was seen to change, the latest open has carried the new one.
   */
  lemma ShownProviderEndsOpen(s: State, changed: bool, p: Provider, events: seq<Event>, t: State)
    requires Inv(s) && s.ui.mounted && s.ui.active == Some(p)
    requires s.ui.web && !s.ui.settingsOpen && s.ui.viewport && !s.ui.leaving.IsLeaving?
    requires !s.ui.leaving.NotLeaving? ==> !(changed && HasDownloadRootChange(s))
    requires Undisturbed(events) && Reaches(Next(s, Effect(changed)), events, t) && Drained(t)
    ensures t.refs.openedRef == Some(p) && t.backend == {p} && t.ui.active == Some(p)
    ensures changed && HasDownloadRootChange(s) ==> t.issuedRoot == s.ui.downloadRoot
  {
    hide WillBeOpen, Next, HasDownloadRootChange, Reroots;
    var u := Next(s, Effect(changed));
    EffectWillOpen(s, changed, p);
    NextKeepsInv(s, Effect(changed));
    RunWillOpen(u, p, events, t);
    DrainedIsOpen(t, p);
    if changed && HasDownloadRootChange(s) {
      EffectReroots(s, p);
      RunReroots(u, p, events, t);
      DrainedIsRerooted(t, p);
      EffectSchedules(s, changed, p);
    }
  }

  lemma SelectAgain(s: State, p: Provider)
    requires s.ui.active == Some(p)
    ensures var t := AfterSelect(s, p);
            && t == s.(ui := s.ui.(intent := s.ui.intent + 1), reconciles := t.reconciles)
            && t.reconciles.pending.None? && t.reconciles.frame.None?
  {
  }

  lemma StaleIsClosed(s: State, p: Provider)
    requires Mirrors(s) && s.awaiting.Opening? && s.awaiting.provider == p && s.awaiting.intent < s.ui.intent
    requires s.refs.visibleRef.None? && s.reconciles.pending.None?
    ensures var b := Settled(s, true);
            && b.awaiting == ClosingStale(p)
            && Settled(b, true) ==
               s.(awaiting := Nothing, running := None, refs := Settled(b, true).refs, backend := {})
            && Settled(b, true).refs.openedRef.None?
  {
  }

  lemma ThreeSteps(s: State, e: Event, f: Event, g: Event)
    requires Possible(s, e) && Possible(Next(s, e), f) && Possible(Next(Next(s, e), f), g)
    ensures Reaches(s, [e, f, g], Next(Next(Next(s, e), f), g))
  {
    hide Next, Possible;
    var t := Next(Next(Next(s, e), f), g);
    assert Reaches(t, [], t);
    assert [g][1..] == [] && [f, g][1..] == [g] && [e, f, g][1..] == [f, g];
    assert Reaches(Next(Next(s, e), f), [g], t);
    assert Reaches(Next(s, e), [f, g], t);
  }

  lemma ReselectLosesTheOpen(s: State, p: Provider)
    requires Inv(s) && Shown(s.ui, p) && s.awaiting == Opening(s.ui.intent, p)
    requires s.queue == [] && s.reconciles.frame.None?
    ensures exists t :: Reaches(s, [Select(p), Settle(true), Settle(true)], t) && Drained(t) && Shown(t.ui, p) &&
                        t.backend == {} && t.refs.openedRef.None? && t.reconciles.pending.None?
  {
    hide NoStraySurface, DoomedCloses, IdentitiesOk, AfterSelect, Settled;
    SelectAgain(s, p);
    StaleIsClosed(AfterSelect(s, p), p);
    ThreeSteps(s, Select(p), Settle(true), Settle(true));
  }

  // ---------- What is closed for good ----------

  predicate ClosesAll(op: Operation) { op.CloseProviderAndAll? || op.CloseAll? }

  /** Everything is closed, or the last operation closes it, and nothing is scheduled behind that. */
  ghost predicate WillBeEmpty(s: State) {
    && s.reconciles.frame.None?
    && if s.queue != [] then ClosesAll(s.queue[|s.queue| - 1])
       else match s.awaiting
         case Nothing => s.backend == {}
         case Closing(_, next) => next == ThenCloseAll(None)
         case ClosingAll(reopen) => reopen.None?
         case _ => false
  }

  lemma BeginWillBeEmpty(s: State)
    requires Inv(s) && WillBeEmpty(s) && s.awaiting.Nothing? && s.queue != []
    ensures WillBeEmpty(BeginNext(s))
  {
    hide Inv, Target, ReconcileBody, CanReconcile;
    var op := s.queue[0];
    if op.Reconcile? {
      BodyKeeps(s.(queue := s.queue[1..], running := Some(op.identity)), s.ui.intent, op.updateBounds);
    }
    if |s.queue| > 1 { assert s.queue[1..][|s.queue| - 2] == s.queue[|s.queue| - 1]; }
  }

  lemma SettleKeepsQueue(s: State, succeeded: bool)
    requires !s.awaiting.Nothing?
    ensures Settled(s, succeeded).queue == s.queue
    ensures Settled(s, succeeded).reconciles.frame == s.reconciles.frame
  {
    hide CanReconcile, Without, ReconcileBody;
    if s.awaiting.ClosingAll? && s.awaiting.reopen.Some? {
      BodyKeeps(s.(backend := {}, refs := NO_REFS), s.awaiting.reopen.value.intent, false);
    }
  }

  lemma SettleWillBeEmpty(s: State, succeeded: bool)
    requires WillBeEmpty(s) && !s.awaiting.Nothing?
    ensures WillBeEmpty(Settled(s, succeeded))
  {
    hide CanReconcile, Without, ReconcileBody, AfterOpen, AfterStale;
    SettleKeepsQueue(s, succeeded);
  }

  lemma StepWillBeEmpty(s: State, e: Event)
    requires Inv(s) && WillBeEmpty(s) && Possible(s, e) && (e.Frame? || e.Begin? || e.Settle?)
    ensures WillBeEmpty(Next(s, e))
  {
    hide Inv, BeginNext, Settled;
    if e.Begin? { BeginWillBeEmpty(s); } else if e.Settle? { SettleWillBeEmpty(s, e.succeeded); }
  }

  lemma {:induction false} RunWillBeEmpty(s: State, events: seq<Event>, t: State)
    requires Inv(s) && WillBeEmpty(s) && Quiet(events) && Reaches(s, events, t)
    ensures WillBeEmpty(t)
    decreases |events|
  {
    hide Inv, WillBeEmpty, Next, Possible;
    if events == [] {
    } else {
      NextKeepsInv(s, events[0]);
      StepWillBeEmpty(s, events[0]);
      RunWillBeEmpty(Next(s, events[0]), events[1..], t);
    }
  }

  /**
   Clearing the provider, changing the mode and leaving the web view close everything: whatever was queued or running,
   the browser comes to rest without a webview, and the provider can then be forgotten.
   */
  lemma ClosedForGood(s: State, e: Event, events: seq<Event>, t: State)
    requires Inv(s) && (e.StartClearing? || e.StartModeChange? || (e.LeaveWeb? && s.ui.web))
    requires Quiet(events) && Reaches(Next(s, e), events, t) && Drained(t)
    ensures t.backend == {} && Possible(t, ForgetActive)
  {
    hide Inv;
    NextKeepsInv(s, e);
    RunWillBeEmpty(Next(s, e), events, t);
  }

  /** Leaving the web view ends with the effect that sees another view; the next effect of a shown view ends it too. */
  lemma LeftAndBack(s: State, root: nat, p: Provider)
    requires s.ui.web && s.ui.active == Some(p) && !s.ui.settingsOpen && s.ui.viewport
    ensures var left := Next(Next(Next(s, LeaveWeb), Render(false, false, true, root)), Effect(false));
            && Next(s, LeaveWeb).ui.leaving.IsLeaving? && left.ui.leaving.HasLeft?
            && Next(Next(left, Render(true, false, true, root)), Effect(false)).ui.leaving.NotLeaving?
  {
    hide CanReconcile, HasDownloadRootChange;
  }

  lemma StepStaysDoomed(s: State, e: Event)
    requires Possible(s, e) && e != Remount && s.doomed
    ensures Next(s, e).doomed
  {
    hide CanReconcile, HasDownloadRootChange, Target, Without;
  }

  lemma {:induction false} StaysDoomed(s: State, events: seq<Event>, t: State)
    requires s.doomed && Remount !in events && Reaches(s, events, t)
    ensures t.doomed
    decreases |events|
  {
    hide Possible, Next;
    if events == [] {
    } else {
      StepStaysDoomed(s, events[0]);
      StaysDoomed(Next(s, events[0]), events[1..], t);
    }
  }

  /** An unmount that is not followed by a remount ends without a webview, whatever else happens. */
  lemma UnmountedEndsEmpty(s: State, events: seq<Event>, t: State)
    requires Inv(s) && Possible(s, UnmountTask) && Remount !in events
    requires Reaches(Next(s, UnmountTask), events, t) && t.awaiting.Nothing? && t.queue == []
    ensures t.backend == {}
  {
    NextKeepsInv(s, UnmountTask);
    StaysDoomed(Next(s, UnmountTask), events, t);
    RunKeepsInv(Next(s, UnmountTask), events, t);
  }

  // ---------- Bounds and history ----------

  /** A resize moves the webview that is open: its bounds are set once the queue is empty. */
  lemma ResizeSetsBounds(s: State, p: Provider)
    requires Inv(s) && Drained(s) && s.reconciles.pending.None? && s.ui.mounted && s.ui.viewport
    requires s.ui.active == Some(p) && s.refs.openedRef == Some(p)
    ensures exists t :: Reaches(s, [Resize, Frame, Begin], t) && t.awaiting == SettingBounds(p)
  {
    hide NoStraySurface, DoomedCloses, Mirrors;
    var a := Next(s, Resize);
    var b := Next(a, Frame);
    assert b.queue[1..] == [] && b.queue[0] == Reconcile(s.reconciles.nextIdentity, true);
    assert BeginNext(b).awaiting == SettingBounds(p);
    ThreeSteps(s, Resize, Frame, Begin);
  }

  /** Going back reaches the backend only if the provider is still the active one when its turn comes. */
  lemma HistoryIsForTheActiveProvider(s: State, p: Provider)
    requires s.ui.active == Some(p)
    ensures var t := Next(s, GoBackOrForward); t.queue == s.queue + [Navigate(p)] && t.ui == s.ui
    ensures forall u: State :: u.awaiting.Nothing? && u.queue != [] && u.queue[0] == Navigate(p) ==>
              (BeginNext(u).awaiting.Navigating? <==> u.ui.active == Some(p))
  {
  }
}
