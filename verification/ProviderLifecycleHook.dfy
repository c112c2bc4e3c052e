/**
 The lifecycle hook as the mutable object it is. Each callback and each continuation reassigns its refs step by
 step; it takes exactly one step of the protocol, keeps the protocol's invariant, and does what its caller counts on.
 */
module ProviderLifecycleHook {
  import opened Options
  import opened ProviderLifecycle
  import opened ProviderProgress

  // ---------- What the contracts use of the invariant ----------

  lemma OtherIntentKeepsInv(s: State, intent: nat)
    requires Inv(s)
    ensures Inv(s.(ui := s.ui.(intent := intent)))
  {}

  lemma WithoutFrameKeepsInv(s: State)
    requires Inv(s) && s.reconciles.frame.Some?
    ensures Inv(s.(reconciles := s.reconciles.(frame := None)))
  {
    var t := s.(reconciles := s.reconciles.(frame := None));
    if s.refs.openedRef.Some? && ClosedInTime(s.queue, s.reconciles, s.refs.openedRef.value) {
      ClosedInTimeFewerLive(s.queue, s.reconciles, t.reconciles, s.refs.openedRef.value);
    }
  }

  lemma EffectPending(s: State, changed: bool)
    ensures var t := AfterEffect(s, changed);
            && (s.reconciles.pending.Some? ==> s.reconciles.pending.value in t.reconciles.cancelled)
            && (t.reconciles.pending.Some? <==>
                && t.ui.active.Some? && t.ui.web && !t.ui.settingsOpen && t.ui.viewport
                && !(changed && HasDownloadRootChange(s)))
            && (t.reconciles.pending.Some? ==>
                && t.reconciles.frame == t.reconciles.pending
                && t.ui.leaving == if s.ui.leaving.HasLeft? then NotLeaving else s.ui.leaving)
            && (changed && HasDownloadRootChange(s) ==> t.queue == s.queue + [RootTransition(t.ui.intent)])
  {}

  lemma EffectStaysCovered(s: State, changed: bool)
    requires Shuts(s, Effect(changed))
    ensures Covered(AfterEffect(s, changed).ui)
  {}

  lemma EffectShuts(s: State, changed: bool)
    requires Inv(s)
    ensures var t := AfterEffect(s, changed);
            Shuts(s, Effect(changed)) && t.refs.openedRef.Some? ==>
              ClosingNow(t.awaiting, t.refs.openedRef.value) || CloseQueued(t.queue, t.refs.openedRef.value)
  {
    hide Inv;
    NotShutIsFine(s);
    UiStepKeepsShut(s, false, Effect(changed));
    if Shuts(s, Effect(changed)) { EffectStaysCovered(s, changed); }
  }

  lemma NothingOpening(s: State)
    requires ReadyToReconcile(s)
    ensures s.refs.openingRef.None? && (s.ui.active.Some? && s.refs.openedRef != s.ui.active ==> s.backend == {})
  {}

  lemma NothingOpenedYet(s: State)
    requires Inv(s) && s.awaiting.Opening?
    ensures s.refs.openedRef.None? && s.refs.openingRef == Some(s.awaiting.provider)
  {}

  lemma StaleOwnsNothingElse(s: State)
    requires Inv(s) && s.awaiting.ClosingStale?
    ensures s.refs.openedRef.None? && s.refs.openingRef == Some(s.awaiting.provider) && s.refs.visibleRef.None?
    ensures s.backend == {s.awaiting.provider}
  {}

  lemma ReopenIsReady(s: State)
    requires Inv(s) && s.awaiting.ClosingAll?
    ensures ReadyToReconcile(s.(backend := {}, refs := NO_REFS))
  {}

  lemma HeadLiveIsReady(s0: State, s: State, op: Operation)
    requires Inv(s0) && s0.awaiting.Nothing? && s0.queue != [] && s == s0.(queue := s0.queue[1..]) && op == s0.queue[0]
    requires Promised(s, op) && Live(op, s.reconciles)
    ensures ReadyToReconcile(s.(running := Some(op.identity)))
  {
    hide ClosedInTime;
    assert s.(awaiting := Nothing, running := None) == s;
    assert Inv(s);
  }

  lemma HeadIsReady(s0: State)
    requires Inv(s0) && s0.awaiting.Nothing? && s0.queue != []
    ensures Live(s0.queue[0], s0.reconciles) ==>
              ReadyToReconcile(s0.(queue := s0.queue[1..], running := Some(s0.queue[0].identity)))
  {
    HeadKeepsPromise(s0);
    if Live(s0.queue[0], s0.reconciles) {
      var s := s0.(queue := s0.queue[1..]);
      HeadLiveIsReady(s0, s, s0.queue[0]);
    }
  }

  lemma CancelledIsNotPending(s: State)
    requires Inv(s)
    ensures s.reconciles.pending.Some? ==> s.reconciles.pending.value !in s.reconciles.cancelled
  {}

  // ---------- The hook itself ----------

  class LifecycleHook {
    var ui: Ui
    var refs: Refs
    var reconciles: Reconciles
    var queue: seq<Operation>
    var running: Option<nat>
    var awaiting: Await
    ghost var backend: set<Provider>
    ghost var issuedRoot: nat
    ghost var doomed: bool

    ghost function View(): State
      reads this
    {
      State(ui, refs, reconciles, queue, running, awaiting, backend, issuedRoot, doomed)
    }

    ghost predicate Valid()
      reads this
    {
      Inv(View())
    }

    constructor (active: Option<Provider>, downloadRoot: nat)
      ensures Valid() && View() == Initial(active, downloadRoot)
    {
      ui := Ui(0, true, active, false, false, false, NotLeaving, downloadRoot);
      refs := NO_REFS;
      reconciles := Reconciles(None, None, false, 0, {});
      queue, running, awaiting := [], None, Nothing;
      backend, issuedRoot, doomed := {}, downloadRoot, false;
    }

    // ---------- Synchronous callbacks ----------

    /** No reconcile that is scheduled or queued can run any more. */
    method CancelReconcile()
      requires Valid()
      modifies this`reconciles
      ensures Valid() && View() == AdvanceIntent(old(View())).(ui := ui)
      ensures reconciles.pending.None? && reconciles.frame.None? &&
              forall k :: 0 <= k < |queue| ==> !Live(queue[k], reconciles)
      ensures old(reconciles.pending).Some? ==> old(reconciles.pending).value in reconciles.cancelled
    {
      AdvanceIntentKeepsInv(View());
      OtherIntentKeepsInv(AdvanceIntent(View()), ui.intent);
      if reconciles.pending.Some? {
        reconciles := reconciles.(cancelled := reconciles.cancelled + {reconciles.pending.value}, frame := None);
      }
      reconciles := reconciles.(pending := None, frame := None);
    }

    /** A new intent: what was reconciled or opened under the old one can no longer be taken over. */
    method Advance() returns (next: nat)
      requires Valid()
      modifies this`ui, this`reconciles
      ensures Valid() && View() == AdvanceIntent(old(View())) && next == ui.intent
      ensures forall p :: !CanReconcile(ui, old(ui.intent), p)
      ensures reconciles.pending.None? && forall k :: 0 <= k < |queue| ==> !Live(queue[k], reconciles)
      ensures old(reconciles.pending).Some? ==> old(reconciles.pending).value in reconciles.cancelled
    {
      hide Inv, Live;
      OtherIntentKeepsInv(View(), ui.intent + 1);
      ui := ui.(intent := ui.intent + 1);
      CancelReconcile();
      next := ui.intent;
    }

    method EnqueueOperation(op: Operation)
      requires Valid()
      requires op.Reconcile? ==> op.identity < reconciles.nextIdentity && reconciles.frame != Some(op.identity)
      modifies this`queue
      ensures Valid() && View() == Enqueue(old(View()), op)
    {
      EnqueueKeepsInv(View(), op);
      queue := queue + [op];
    }

    /** Afterwards one reconcile is pending: the one that already was, or one under an identity nothing else has. */
    method EnqueueReconcile(updateBounds: bool)
      requires Valid()
      modifies this`reconciles
      ensures Valid() && View() == QueueReconcile(old(View()), updateBounds)
      ensures reconciles.pending.Some? && (old(reconciles.pending).Some? ==> reconciles == old(reconciles))
      ensures old(reconciles.pending).None? ==>
                && reconciles.frame == reconciles.pending
                && reconciles.pending.value !in reconciles.cancelled && NotQueued(queue, reconciles.pending.value)
    {
      QueueReconcileKeepsInv(View(), updateBounds);
      if reconciles.pending.Some? { return; }
      var identity := reconciles.nextIdentity;
      reconciles := reconciles.(pending := Some(identity), nextIdentity := identity + 1);
      reconciles := reconciles.(frame := Some(identity), updateBounds := updateBounds);
    }

    /** The frame queues the pending reconcile, and that entry is the only live one. */
    method OnFrame()
      requires Valid() && Possible(View(), Frame)
      modifies this`reconciles, this`queue
      ensures Valid() && View() == Next(old(View()), Frame)
      ensures |queue| == |old(queue)| + 1 &&
              forall k :: 0 <= k < |queue| ==> (Live(queue[k], reconciles) <==> k == |old(queue)|)
    {
      WithoutFrameKeepsInv(View());
      var identity := reconciles.frame.value;
      reconciles := reconciles.(frame := None);
      EnqueueOperation(Reconcile(identity, reconciles.updateBounds));
    }

    /**
     The effect rules: the pending reconcile is cancelled; a new one is pending exactly if a provider is to be shown and
     no change of the download root is handled instead; and a view that is covered or left has the close of whatever is
     open on the way.
     */
    method OnEffect(downloadRootChanged: bool)
      requires Valid()
      modifies this`ui, this`reconciles, this`queue
      ensures Valid() && View() == AfterEffect(old(View()), downloadRootChanged)
      ensures old(reconciles.pending).Some? ==> old(reconciles.pending).value in reconciles.cancelled
      ensures reconciles.pending.Some? <==>
                && ui.active.Some? && ui.web && !ui.settingsOpen && ui.viewport
                && !(downloadRootChanged && old(HasDownloadRootChange(View())))
      ensures reconciles.pending.Some? ==>
                && reconciles.frame == reconciles.pending
                && ui.leaving == if old(ui.leaving).HasLeft? then NotLeaving else old(ui.leaving)
      ensures downloadRootChanged && old(HasDownloadRootChange(View())) ==>
                queue == old(queue) + [RootTransition(ui.intent)]
      ensures old(Shuts(View(), Effect(downloadRootChanged))) && refs.openedRef.Some? ==>
                ClosingNow(awaiting, refs.openedRef.value) || CloseQueued(queue, refs.openedRef.value)
    {
      hide Inv, ClosingNow, CloseQueued, Shuts, CanReconcile, Live, Arranged;
      EffectKeepsInv(View(), downloadRootChanged);
      EffectPending(View(), downloadRootChanged);
      EffectShuts(View(), downloadRootChanged);
      var now := Advance();
      if downloadRootChanged && (refs.openedRef.Some? || refs.openingRef.Some?) &&
         refs.surfaceRoot != Some(ui.downloadRoot) {
        EnqueueOperation(RootTransition(now));
      } else {
        ArrangeView();
      }
    }

    method ArrangeView()
      requires Valid()
      modifies this`ui, this`reconciles, this`queue
      ensures Valid() && View() == Arranged(old(View()))
    {
      hide Inv, NotQueued;
      if ui.settingsOpen {
        if ui.active.Some? { EnqueueOperation(CloseOpened(ui.active)); }
        return;
      }
      if !ui.web {
        LeavingKeepsInv(View(), HasLeft);
        if ui.leaving.IsLeaving? { ui := ui.(leaving := HasLeft); }
        EnqueueOperation(CloseProviderAndAll(ui.active));
        return;
      }
      if ui.active.None? || !ui.viewport { return; }
      LeavingKeepsInv(View(), NotLeaving);
      if ui.leaving.HasLeft? { ui := ui.(leaving := NotLeaving); }
      EnqueueReconcile(false);
    }

    /** The surface of any other provider is closed, or will be before a queued reconcile can open the selected one. */
    method SelectProvider(provider: Provider)
      requires Valid()
      modifies this`ui, this`reconciles, this`queue
      ensures Valid() && View() == AfterSelect(old(View()), provider)
      ensures ui.active == Some(provider) && reconciles.pending.None?
      ensures refs.openedRef.Some? && refs.openedRef != Some(provider) ==>
                ClosingNow(awaiting, refs.openedRef.value) || ClosedInTime(queue, reconciles, refs.openedRef.value)
    {
      SelectKeepsInv(View(), provider);
      var _ := Advance();
      if ui.active != Some(provider) { EnqueueOperation(CloseOpened(ui.active)); }
      ui := ui.(active := Some(provider));
    }

    /** From the web view, nothing can be opened any more under any intent, and what is open will be closed. */
    method LeaveWebView()
      requires Valid()
      modifies this`ui, this`reconciles, this`queue
      ensures Valid() && View() == Next(old(View()), LeaveWeb)
      ensures if !old(ui.web) then View() == old(View())
              else
                && (forall intent, p :: !CanReconcile(ui, intent, p))
                && (refs.openedRef.Some? ==> CloseQueued(queue, refs.openedRef.value))
    {
      hide Inv, CloseQueued, Live;
      if !ui.web { return; }
      LeavingKeepsInv(View(), IsLeaving);
      if refs.openedRef.Some? { CloseStaysQueued(queue, CloseProviderAndAll(ui.active), refs.openedRef.value); }
      ui := ui.(leaving := IsLeaving);
      var _ := Advance();
      EnqueueOperation(CloseProviderAndAll(ui.active));
    }

    // ---------- Continuations of the running operation ----------

    /** The operation's promise settles; a reconcile clears the pending entry if it is still its own. */
    method FinishOperation()
      modifies this`reconciles, this`running, this`awaiting
      ensures View() == Finished(old(View())) && (old(ReadyToFinish(View())) ==> Valid())
      ensures awaiting.Nothing? && (old(running).Some? ==> reconciles.pending != old(running))
    {
      if ReadyToFinish(View()) { FinishedKeepsInv(View()); }
      if running.Some? && reconciles.pending == running { reconciles := reconciles.(pending := None); }
      running := None;
      awaiting := Nothing;
    }

    /** An open starts exactly if the active provider is not the opened one and may be reconciled under the intent. */
    method StartReconcile(intent: nat, updateBounds: bool)
      requires ReadyToReconcile(View())
      modifies this`refs, this`reconciles, this`running, this`awaiting, this`issuedRoot
      ensures Valid() && View() == ReconcileBody(old(View()), intent, updateBounds)
      ensures awaiting.Opening? <==>
                ui.active.Some? && old(refs.openedRef) != ui.active && CanReconcile(ui, intent, ui.active.value)
      ensures awaiting.Opening? ==> awaiting == Opening(intent, ui.active.value) && backend == {}
      ensures refs.openedRef == old(refs.openedRef) && (awaiting.Opening? || refs == old(refs))
      ensures awaiting.Opening? || awaiting.Nothing? || (awaiting.SettingBounds? && updateBounds)
    {
      hide Finished, CanReconcile, Inv;
      ReconcileBodyKeepsInv(View(), intent, updateBounds);
      NothingOpening(View());
      if ui.active.None? { FinishOperation(); return; }
      var provider := ui.active.value;
      if refs.openedRef != Some(provider) {
        if !CanReconcile(ui, intent, provider) || refs.openingRef == Some(provider) { FinishOperation(); return; }
        refs := refs.(openingRef := Some(provider));
        refs := refs.(surfaceRoot := Some(ui.downloadRoot));
        issuedRoot := ui.downloadRoot;
        awaiting := Opening(intent, provider);
        return;
      }
      if !ui.mounted || !updateBounds { FinishOperation(); return; }
      awaiting := SettingBounds(provider);
    }

    /** `open_provider_browser` settles: the backend closed every webview before it tried to open this one. */
    method OpenSettled(succeeded: bool)
      requires Valid() && awaiting.Opening?
      modifies this`ui, this`refs, this`reconciles, this`running, this`awaiting, this`backend
      ensures Valid() && View() == Settled(old(View()), succeeded)
      ensures var p, current := old(awaiting.provider), old(CanReconcile(ui, awaiting.intent, awaiting.provider));
              && refs.openedRef == (if succeeded && current then Some(p) else None)
              && awaiting == (if succeeded && !current then ClosingStale(p) else Nothing)
              && backend == (if succeeded then {p} else {})
              && ui.active == (if !succeeded && current then None else old(ui.active))
    {
      hide Finished, CanReconcile, Inv, Mirrors;
      AfterOpenKeepsInv(View(), succeeded);
      NothingOpenedYet(View());
      var provider := awaiting.provider;
      var stale := !CanReconcile(ui, awaiting.intent, provider);
      if succeeded {
        backend := {provider};
        if stale { awaiting := ClosingStale(provider); return; }
        refs := refs.(openingRef := None);
        refs := refs.(openedRef := Some(provider), visibleRef := Some(provider));
      } else {
        backend := {};
        if refs.openingRef == Some(provider) { refs := refs.(openingRef := None); }
        refs := refs.(surfaceRoot := None);
        if !stale { ui := ui.(active := None); }
      }
      FinishOperation();
    }

    /** The close of `provider` has returned: no ref names it any more. */
    method ReleaseRefs(provider: Provider)
      modifies this`refs, this`backend
      ensures refs == Refs(Without(old(refs.openingRef), provider), Without(old(refs.openedRef), provider),
                           Without(old(refs.visibleRef), provider), old(refs.surfaceRoot))
      ensures backend == old(backend) - {provider}
    {
      backend := backend - {provider};
      if refs.openedRef == Some(provider) { refs := refs.(openedRef := None); }
      if refs.openingRef == Some(provider) { refs := refs.(openingRef := None); }
      if refs.visibleRef == Some(provider) { refs := refs.(visibleRef := None); }
    }

    /** The overtaken open ends with nothing open and nothing owned. */
    method StaleClosed()
      requires Valid() && awaiting.ClosingStale?
      modifies this`refs, this`reconciles, this`running, this`awaiting, this`backend
      ensures Valid() && View() == Settled(old(View()), true)
      ensures backend == {} && refs == NO_REFS && awaiting.Nothing?
    {
      hide Finished, Inv;
      AfterStaleKeepsInv(View());
      StaleOwnsNothingElse(View());
      ReleaseRefs(awaiting.provider);
      if refs.openedRef.None? && refs.openingRef.None? { refs := refs.(surfaceRoot := None); }
      FinishOperation();
    }

    /** The closed provider is gone from the backend and from every ref; any other surface stays open and owned. */
    method ProviderClosed()
      requires Valid() && awaiting.Closing?
      modifies this`refs, this`reconciles, this`running, this`awaiting, this`backend
      ensures Valid() && View() == Settled(old(View()), true)
      ensures var p := old(awaiting.target);
              && p !in backend && refs.openedRef != Some(p) && refs.openingRef != Some(p) && refs.visibleRef != Some(p)
              && (forall q :: q != p ==>
                  (q in backend <==> q in old(backend)) &&
                    (refs.openedRef == Some(q) <==> old(refs.openedRef) == Some(q)))
      ensures if old(awaiting.next).Finish? then awaiting.Nothing? else awaiting.ClosingAll?
    {
      hide Finished, Inv;
      AfterCloseKeepsInv(View());
      ReleaseRefs(awaiting.target);
      refs := refs.(surfaceRoot := None);
      match awaiting.next
      case Finish => FinishOperation();
      case ThenCloseAll(reopen) => awaiting := ClosingAll(reopen);
    }

    /** Nothing is open; exactly a root transition that is still wanted opens again, for its own intent and provider. */
    method AllClosed()
      requires Valid() && awaiting.ClosingAll?
      modifies this`refs, this`reconciles, this`running, this`awaiting, this`backend, this`issuedRoot
      ensures Valid() && View() == Settled(old(View()), true)
      ensures backend == {} && refs.openedRef.None? && (awaiting.Nothing? || awaiting.Opening?)
      ensures var r := old(awaiting.reopen);
              && (awaiting.Opening? <==> r.Some? && CanReconcile(ui, r.value.intent, r.value.provider))
              && (awaiting.Opening? ==> awaiting == Opening(ui.intent, r.value.provider))
    {
      hide Finished, ReconcileBody, Inv;
      AfterCloseAllKeepsInv(View(), awaiting.reopen);
      ReopenIsReady(View());
      backend, refs := {}, NO_REFS;
      match awaiting.reopen
      case None => FinishOperation();
      case Some(r) =>
        if !ui.mounted || r.intent != ui.intent || ui.active != Some(r.provider) || !ui.viewport { FinishOperation(); }
        else { StartReconcile(r.intent, false); }
    }

    /** The pending reconcile opens exactly if the active provider is not the opened one and may be reconciled. */
    method RunReconcile(identity: nat, updateBounds: bool)
      requires awaiting.Nothing? && ReadyToReconcile(View().(running := Some(identity)))
      modifies this`refs, this`reconciles, this`running, this`awaiting, this`issuedRoot
      ensures var s := old(View()).(running := Some(identity));
              Valid() && View() == if ui.viewport then ReconcileBody(s, ui.intent, updateBounds) else Finished(s)
      ensures awaiting.Opening? <==>
                ui.active.Some? && old(refs.openedRef) != ui.active && CanReconcile(ui, ui.intent, ui.active.value)
      ensures awaiting.Opening? ==> awaiting == Opening(ui.intent, ui.active.value) && backend == {}
    {
      hide Finished, ReconcileBody, Inv;
      running := Some(identity);
      if ui.viewport { StartReconcile(ui.intent, updateBounds); } else { FinishOperation(); }
    }

    /** The next queued operation runs up to its first await. */
    method BeginOperation()
      requires Valid() && Possible(View(), Begin)
      modifies this`refs, this`reconciles, this`running, this`awaiting, this`queue, this`issuedRoot
      ensures Valid() && View() == BeginNext(old(View()))
      ensures queue == old(queue)[1..]
      ensures old(queue)[0].Reconcile? && old(queue)[0].identity in old(reconciles.cancelled) ==>
                View() == old(View()).(queue := queue)
      ensures awaiting.Opening? <==>
                && Live(old(queue)[0], old(reconciles))
                && ui.active.Some? && old(refs.openedRef) != ui.active && CanReconcile(ui, ui.intent, ui.active.value)
      ensures awaiting.Opening? ==> awaiting == Opening(ui.intent, ui.active.value) && backend == {}
    {
      hide Finished, ReconcileBody, Target, Inv, CanReconcile;
      BeginKeepsInv(View());
      HeadIsReady(View());
      CancelledIsNotPending(View());
      var op := queue[0];
      queue := queue[1..];
      match op
      case CloseOpened(target) =>
        var provider := OperationTarget(target);
        if provider.None? { FinishOperation(); } else { awaiting := Closing(provider.value, Finish); }
      case CloseProviderAndAll(target) =>
        var provider := OperationTarget(target);
        awaiting := if provider.None? then ClosingAll(None) else Closing(provider.value, ThenCloseAll(None));
      case CloseAll => awaiting := ClosingAll(None);
      case Reconcile(identity, updateBounds) =>
        if reconciles.pending == Some(identity) { RunReconcile(identity, updateBounds); }
      case RootTransition(intent) =>
        if ui.active.None? { return; }
        awaiting := Closing(ui.active.value, ThenCloseAll(Some(Reopen(intent, ui.active.value))));
      case Navigate(provider) => if ui.active == Some(provider) { awaiting := Navigating; }
    }

    method OperationTarget(target: Option<Provider>) returns (provider: Option<Provider>)
      ensures provider == Target(refs, target)
    {
      if target.Some? { return target; }
      provider := if refs.openedRef.Some? then refs.openedRef else refs.openingRef;
    }
  }
}
