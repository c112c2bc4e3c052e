/**
 The embedded provider browser: UI events, the serial operation queue with cancellable reconciles, and the
 ownership refs that mirror the webviews of the backend. One step is the code between two awaits.
 */
module ProviderLifecycle {
  import opened Options

  type Provider = nat

  datatype Leaving = NotLeaving | IsLeaving | HasLeft

  /** The state the UI sees: the intent counter, mounting, and what the last render published. */
  datatype Ui = Ui(intent: nat, mounted: bool, active: Option<Provider>, web: bool, settingsOpen: bool,
                   viewport: bool, leaving: Leaving, downloadRoot: nat)

  /** The ownership refs. */
  datatype Refs = Refs(openingRef: Option<Provider>, openedRef: Option<Provider>, visibleRef: Option<Provider>,
                       surfaceRoot: Option<nat>)

  /** The pending reconcile, the scheduled animation frame, and every identity handed out or cancelled so far. */
  datatype Reconciles = Reconciles(pending: Option<nat>, frame: Option<nat>, updateBounds: bool, nextIdentity: nat,
                                   cancelled: set<nat>)

  datatype Operation =
    | CloseOpened(target: Option<Provider>)
    | CloseProviderAndAll(target: Option<Provider>)
    | CloseAll
    | Reconcile(identity: nat, updateBounds: bool)
    | RootTransition(intent: nat)
    | Navigate(provider: Provider)

  datatype Reopen = Reopen(intent: nat, provider: Provider)

  /** What an awaited close is followed by. */
  datatype After = Finish | ThenCloseAll(reopen: Option<Reopen>)

  /** Where the running operation awaits a backend command. */
  datatype Await =
    | Nothing
    | Closing(target: Provider, next: After)
    | ClosingAll(reopen: Option<Reopen>)
    | Opening(intent: nat, provider: Provider)
    | ClosingStale(provider: Provider)
    | SettingBounds(provider: Provider)
    | Showing(provider: Provider)
    | Navigating

  /**
   `running` is the identity of the reconcile that is executing, `backend` the set of open webviews, and `issuedRoot`
   the download root the latest open command carried.
   */
  datatype State = State(ui: Ui, refs: Refs, reconciles: Reconciles, queue: seq<Operation>, running: Option<nat>,
                         awaiting: Await, backend: set<Provider>, issuedRoot: nat, doomed: bool)

  const NO_REFS := Refs(None, None, None, None)

  function Initial(active: Option<Provider>, downloadRoot: nat): State {
    State(Ui(0, true, active, false, false, false, NotLeaving, downloadRoot), NO_REFS,
          Reconciles(None, None, false, 0, {}), [], None, Nothing, {}, downloadRoot, false)
  }

  // ---------- Synchronous UI code ----------

  predicate CanReconcile(ui: Ui, intent: nat, provider: Provider) {
    && ui.mounted && intent == ui.intent && ui.active == Some(provider)
    && ui.web && !ui.settingsOpen && ui.viewport && ui.leaving.NotLeaving?
  }

  /** Bumps the intent and cancels the pending reconcile, unscheduling its frame. */
  function AdvanceIntent(s: State): State {
    var r := s.reconciles;
    s.(ui := s.ui.(intent := s.ui.intent + 1),
       reconciles := r.(pending := None, frame := None,
                        cancelled := if r.pending.Some? then r.cancelled + {r.pending.value} else r.cancelled))
  }

  function Enqueue(s: State, op: Operation): State { s.(queue := s.queue + [op]) }

  /** A reconcile is scheduled for the next frame unless one is pending already. */
  function QueueReconcile(s: State, updateBounds: bool): State {
    var r := s.reconciles;
    if r.pending.Some? then s
    else
      s.(reconciles := r.(pending := Some(r.nextIdentity), frame := Some(r.nextIdentity),
                          updateBounds := updateBounds, nextIdentity := r.nextIdentity + 1))
  }

  predicate HasDownloadRootChange(s: State) {
    (s.refs.openedRef.Some? || s.refs.openingRef.Some?) && s.refs.surfaceRoot != Some(s.ui.downloadRoot)
  }

  datatype Event =
    | Render(web: bool, settingsOpen: bool, viewport: bool, downloadRoot: nat)
    | Effect(downloadRootChanged: bool)
    | Resize
    | Frame
    | Select(provider: Provider)
    | StartClearing
    | ForgetActive
    | LeaveWeb
    | StartModeChange
    | GoBackOrForward
    | Unmount
    | UnmountTask
    | Remount
    | Begin
    | Settle(succeeded: bool)

  /** The effect rules for a view that is covered, left, empty or shown. */
  function Arranged(s: State): State {
    if s.ui.settingsOpen then (if s.ui.active.Some? then Enqueue(s, CloseOpened(s.ui.active)) else s)
    else if !s.ui.web then
      Enqueue(s.(ui := s.ui.(leaving := if s.ui.leaving.IsLeaving? then HasLeft else s.ui.leaving)),
              CloseProviderAndAll(s.ui.active))
    else if s.ui.active.None? || !s.ui.viewport then s
    else QueueReconcile(s.(ui := s.ui.(leaving := if s.ui.leaving.HasLeft? then NotLeaving else s.ui.leaving)), false)
  }

  function AfterEffect(s0: State, downloadRootChanged: bool): State {
    var s := AdvanceIntent(s0);
    if downloadRootChanged && HasDownloadRootChange(s) then Enqueue(s, RootTransition(s.ui.intent)) else Arranged(s)
  }

  function AfterSelect(s0: State, provider: Provider): State {
    var s := AdvanceIntent(s0);
    var t := if s.ui.active != Some(provider) then Enqueue(s, CloseOpened(s.ui.active)) else s;
    t.(ui := t.ui.(active := Some(provider)))
  }

  // ---------- The running operation ----------

  /** The operation ends: a reconcile that is still the pending one clears it. */
  function Finished(s: State): State {
    s.(awaiting := Nothing, running := None,
       reconciles := if s.running.Some? && s.reconciles.pending == s.running then s.reconciles.(pending := None)
                     else s.reconciles)
  }

  function ReconcileBody(s: State, intent: nat, updateBounds: bool): State {
    if s.ui.active.None? then Finished(s)
    else
      var provider := s.ui.active.value;
      if s.refs.openedRef != Some(provider) then
        if !CanReconcile(s.ui, intent, provider) || s.refs.openingRef == Some(provider) then Finished(s)
        else s.(refs := s.refs.(openingRef := Some(provider), surfaceRoot := Some(s.ui.downloadRoot)),
                issuedRoot := s.ui.downloadRoot, awaiting := Opening(intent, provider))
      else if !s.ui.mounted || !updateBounds then Finished(s)
      else s.(awaiting := SettingBounds(provider))
  }

  function Target(refs: Refs, target: Option<Provider>): Option<Provider> {
    if target.Some? then target else if refs.openedRef.Some? then refs.openedRef else refs.openingRef
  }

  function Continue(s: State, next: After): State {
    match next
    case Finish => Finished(s)
    case ThenCloseAll(reopen) => s.(awaiting := ClosingAll(reopen))
  }

  function CloseThen(s: State, target: Option<Provider>, next: After): State {
    match Target(s.refs, target)
    case None => Continue(s, next)
    case Some(p) => s.(awaiting := Closing(p, next))
  }

  /** The head of the queue starts once nothing is running. */
  function BeginNext(s0: State): State
    requires s0.awaiting.Nothing? && s0.queue != []
  {
    var op, s := s0.queue[0], s0.(queue := s0.queue[1..]);
    match op
    case CloseOpened(target) => CloseThen(s, target, Finish)
    case CloseProviderAndAll(target) => CloseThen(s, target, ThenCloseAll(None))
    case CloseAll => s.(awaiting := ClosingAll(None))
    case Reconcile(identity, updateBounds) =>
      if s.reconciles.pending != Some(identity) then s
      else
        var t := s.(running := Some(identity));
        if t.ui.viewport then ReconcileBody(t, t.ui.intent, updateBounds) else Finished(t)
    case RootTransition(intent) =>
      if s.ui.active.None? then s
      else s.(awaiting := Closing(s.ui.active.value, ThenCloseAll(Some(Reopen(intent, s.ui.active.value)))))
    case Navigate(provider) => if s.ui.active == Some(provider) then s.(awaiting := Navigating) else s
  }

  function Without(ref: Option<Provider>, p: Provider): Option<Provider> { if ref == Some(p) then None else ref }

  function AfterOpen(s: State, intent: nat, provider: Provider, succeeded: bool): State {
    if succeeded then
      var t := s.(backend := {provider});
      if !CanReconcile(t.ui, intent, provider) then t.(awaiting := ClosingStale(provider))
      else Finished(t.(refs := t.refs.(openingRef := None, openedRef := Some(provider), visibleRef := Some(provider))))
    else
      var t := s.(backend := {},
                  refs := s.refs.(openingRef := Without(s.refs.openingRef, provider), surfaceRoot := None));
      if !CanReconcile(t.ui, intent, provider) then Finished(t)
      else Finished(t.(ui := t.ui.(active := None)))
  }

  function AfterStale(s: State, p: Provider): State {
    var now := Refs(Without(s.refs.openingRef, p), Without(s.refs.openedRef, p), Without(s.refs.visibleRef, p),
                    s.refs.surfaceRoot);
    var root := if now.openedRef.None? && now.openingRef.None? then None else s.refs.surfaceRoot;
    Finished(s.(backend := s.backend - {p}, refs := now.(surfaceRoot := root)))
  }

  function AfterCloseAll(s: State, reopen: Option<Reopen>): State {
    var t := s.(backend := {}, refs := NO_REFS);
    match reopen
    case None => Finished(t)
    case Some(r) =>
      if !t.ui.mounted || r.intent != t.ui.intent || t.ui.active != Some(r.provider) || !t.ui.viewport then Finished(t)
      else ReconcileBody(t, r.intent, false)
  }

  /** The awaited backend command settles. Closes succeed; opens, bounds and show may fail. */
  function Settled(s: State, succeeded: bool): State
    requires !s.awaiting.Nothing?
  {
    match s.awaiting
    case Closing(p, next) =>
      var r := s.refs;
      Continue(s.(backend := s.backend - {p},
                  refs := Refs(Without(r.openingRef, p), Without(r.openedRef, p), Without(r.visibleRef, p), None)),
               next)
    case ClosingAll(reopen) => AfterCloseAll(s, reopen)
    case Opening(intent, provider) => AfterOpen(s, intent, provider, succeeded)
    case ClosingStale(p) => AfterStale(s, p)
    case SettingBounds(p) =>
      if succeeded && s.refs.visibleRef != Some(p) then s.(awaiting := Showing(p)) else Finished(s)
    case Showing(p) => Finished(if succeeded then s.(refs := s.refs.(visibleRef := Some(p))) else s)
    case Navigating => Finished(s)
  }

  predicate Possible(s: State, e: Event) {
    match e
    case Frame => s.reconciles.frame.Some?
    case ForgetActive => s.awaiting.Nothing? && s.backend == {}
    case UnmountTask => !s.ui.mounted
    case Begin => s.awaiting.Nothing? && s.queue != []
    case Settle(_) => !s.awaiting.Nothing?
    case _ => true
  }

  /**
   One step. ForgetActive is the end of clearing or of a mode change: it continues the close of all webviews that
   was queued for it, before the next operation begins. UnmountTask is the microtask of an unmount that was not
   followed by a remount.
   */
  function Next(s: State, e: Event): State
    requires Possible(s, e)
  {
    match e
    case Render(web, settingsOpen, viewport, root) =>
      s.(ui := s.ui.(web := web, settingsOpen := settingsOpen, viewport := viewport, downloadRoot := root))
    case Effect(changed) => AfterEffect(s, changed)
    case Resize => QueueReconcile(s, true)
    case Frame =>
      Enqueue(s.(reconciles := s.reconciles.(frame := None)),
              Reconcile(s.reconciles.frame.value, s.reconciles.updateBounds))
    case Select(p) => AfterSelect(s, p)
    case StartClearing => var t := AdvanceIntent(s); Enqueue(t, CloseProviderAndAll(t.ui.active))
    case ForgetActive => s.(ui := s.ui.(active := None))
    case LeaveWeb =>
      if !s.ui.web then s
      else var t := AdvanceIntent(s.(ui := s.ui.(leaving := IsLeaving))); Enqueue(t, CloseProviderAndAll(t.ui.active))
    case StartModeChange => Enqueue(AdvanceIntent(s), CloseAll)
    case GoBackOrForward => if s.ui.active.None? then s else Enqueue(s, Navigate(s.ui.active.value))
    case Unmount => AdvanceIntent(s.(ui := s.ui.(mounted := false)))
    case UnmountTask => Enqueue(s, CloseAll).(doomed := true)
    case Remount => s.(ui := s.ui.(mounted := true), doomed := false)
    case Begin => BeginNext(s)
    case Settle(succeeded) => Settled(s, succeeded)
  }

  // ---------- The invariant ----------

  function Owned(owner: Option<Provider>): set<Provider> { if owner.Some? then {owner.value} else {} }

  /** The refs mirror the backend at every await point of the running operation. */
  ghost predicate Mirrors(s: State) {
    match s.awaiting
    case Opening(_, p) => s.refs.openingRef == Some(p) && s.refs.openedRef.None? && s.backend == {}
    case ClosingStale(p) => s.refs.openingRef == Some(p) && s.refs.openedRef.None? && s.backend == {p}
    case SettingBounds(p) => s.refs.openingRef.None? && s.refs.openedRef == Some(p) && s.backend == {p}
    case Showing(p) => s.refs.openingRef.None? && s.refs.openedRef == Some(p) && s.backend == {p}
    case _ => s.refs.openingRef.None? && s.backend == Owned(s.refs.openedRef)
  }

  predicate Closes(op: Operation, p: Provider) {
    op == CloseOpened(Some(p)) || op == CloseOpened(None) || op.CloseProviderAndAll? || op.CloseAll?
  }

  predicate Live(op: Operation, r: Reconciles) { op.Reconcile? && r.pending == Some(op.identity) }

  /** Some queued operation closes p before any reconcile that can still run. */
  ghost predicate ClosedInTime(queue: seq<Operation>, r: Reconciles, p: Provider) {
    exists k :: 0 <= k < |queue| && Closes(queue[k], p) && forall j :: 0 <= j < k ==> !Live(queue[j], r)
  }

  predicate ClosingNow(a: Await, p: Provider) {
    a.ClosingAll? || (a.Closing? && (a.target == p || a.next.ThenCloseAll?))
  }

  /** A surface that is not the active provider's is being closed, or will be before anything else can open. */
  ghost predicate NoStraySurface(s: State) {
    s.refs.openedRef.Some? && s.ui.active.Some? && s.refs.openedRef != s.ui.active ==>
      ClosingNow(s.awaiting, s.refs.openedRef.value) || ClosedInTime(s.queue, s.reconciles, s.refs.openedRef.value)
  }

  predicate NotQueued(queue: seq<Operation>, identity: nat) {
    forall k :: 0 <= k < |queue| && queue[k].Reconcile? ==> queue[k].identity != identity
  }

  /** Identities are handed out once, and a cancelled one is never pending again. */
  ghost predicate IdentitiesOk(s: State) {
    var r := s.reconciles;
    && (r.pending.Some? ==> r.pending.value < r.nextIdentity && r.pending.value !in r.cancelled)
    && (r.frame.Some? ==> r.frame == r.pending)
    && (forall id :: id in r.cancelled ==> id < r.nextIdentity)
    && (forall k :: 0 <= k < |s.queue| && s.queue[k].Reconcile? ==> s.queue[k].identity < r.nextIdentity)
    && (r.frame.Some? ==> s.running != r.frame && NotQueued(s.queue, r.frame.value))
    && (s.running.Some? ==> s.running.value < r.nextIdentity)
    && (s.awaiting.Nothing? ==> s.running.None?)
  }

  /** After an unmount without remount, whatever is still open has its close under way. */
  ghost predicate DoomedCloses(s: State) {
    s.doomed ==>
      && !s.ui.mounted
      && (s.refs.openedRef.Some? ==>
            s.awaiting.ClosingAll? || (s.awaiting.Closing? && s.awaiting.next.ThenCloseAll?) ||
              exists k :: 0 <= k < |s.queue| && s.queue[k].CloseAll?)
  }

  /** Only the active provider is opened, and it is not forgotten while a surface is owned. */
  predicate OwnedByActive(s: State) { s.ui.active.None? ==> s.refs.openedRef.None? && s.refs.openingRef.None? }

  /** The remembered root is the one the latest open command carried. */
  predicate RootTracked(s: State) { s.refs.surfaceRoot.Some? ==> s.refs.surfaceRoot.value == s.issuedRoot }

  ghost predicate Inv(s: State) {
    && Mirrors(s) && NoStraySurface(s) && IdentitiesOk(s) && DoomedCloses(s)
    && (s.refs.visibleRef.Some? ==> s.refs.visibleRef == s.refs.openedRef)
    && RootTracked(s) && OwnedByActive(s)
  }

  // ---------- Every step keeps the invariant ----------

  /** Fewer live reconciles leave every queued close in time. */
  lemma ClosedInTimeFewerLive(queue: seq<Operation>, r: Reconciles, r': Reconciles, p: Provider)
    requires ClosedInTime(queue, r, p)
    requires forall k :: 0 <= k < |queue| && Live(queue[k], r') ==> Live(queue[k], r)
    ensures ClosedInTime(queue, r', p)
  {}

  lemma AdvanceIntentKeepsInv(s: State)
    requires Inv(s)
    ensures Inv(AdvanceIntent(s)) && AdvanceIntent(s).reconciles.pending.None?
  {
    if s.refs.openedRef.Some? && ClosedInTime(s.queue, s.reconciles, s.refs.openedRef.value) {
      ClosedInTimeFewerLive(s.queue, s.reconciles, AdvanceIntent(s).reconciles, s.refs.openedRef.value);
    }
  }

  lemma ClosedInTimeAppend(queue: seq<Operation>, r: Reconciles, p: Provider, op: Operation)
    requires ClosedInTime(queue, r, p)
    ensures ClosedInTime(queue + [op], r, p)
  {
    var k :| 0 <= k < |queue| && Closes(queue[k], p) && forall j :: 0 <= j < k ==> !Live(queue[j], r);
    assert Closes((queue + [op])[k], p);
  }

  lemma EnqueueKeepsInv(s: State, op: Operation)
    requires Inv(s)
    requires op.Reconcile? ==> op.identity < s.reconciles.nextIdentity && s.reconciles.frame != Some(op.identity)
    ensures Inv(Enqueue(s, op))
  {
    var t := Enqueue(s, op);
    if s.refs.openedRef.Some? && ClosedInTime(s.queue, s.reconciles, s.refs.openedRef.value) {
      ClosedInTimeAppend(s.queue, s.reconciles, s.refs.openedRef.value, op);
    }
    if k :| 0 <= k < |s.queue| && s.queue[k].CloseAll? { assert t.queue[k].CloseAll?; }
  }

  lemma QueueReconcileKeepsInv(s: State, updateBounds: bool)
    requires Inv(s)
    ensures Inv(QueueReconcile(s, updateBounds))
  {
    var t := QueueReconcile(s, updateBounds);
    if s.refs.openedRef.Some? && ClosedInTime(s.queue, s.reconciles, s.refs.openedRef.value) {
      ClosedInTimeFewerLive(s.queue, s.reconciles, t.reconciles, s.refs.openedRef.value);
    }
  }

  lemma LeavingKeepsInv(s: State, leaving: Leaving)
    requires Inv(s)
    ensures Inv(s.(ui := s.ui.(leaving := leaving)))
  {
  }

  lemma EffectKeepsInv(s: State, changed: bool)
    requires Inv(s)
    ensures Inv(AfterEffect(s, changed))
  {
    hide Inv, HasDownloadRootChange;
    AdvanceIntentKeepsInv(s);
    var t := AdvanceIntent(s);
    EnqueueKeepsInv(t, RootTransition(t.ui.intent));
    EnqueueKeepsInv(t, CloseOpened(t.ui.active));
    var left := if t.ui.leaving.IsLeaving? then HasLeft else t.ui.leaving;
    var back := if t.ui.leaving.HasLeft? then NotLeaving else t.ui.leaving;
    LeavingKeepsInv(t, left);
    LeavingKeepsInv(t, back);
    EnqueueKeepsInv(t.(ui := t.ui.(leaving := left)), CloseProviderAndAll(t.ui.active));
    QueueReconcileKeepsInv(t.(ui := t.ui.(leaving := back)), false);
  }

  /** Selecting another provider queues the close of whatever surface is open before the new one can open. */
  lemma SelectKeepsInv(s: State, p: Provider)
    requires Inv(s)
    ensures Inv(AfterSelect(s, p))
  {
    AdvanceIntentKeepsInv(s);
    var t, u := AdvanceIntent(s), AfterSelect(s, p);
    EnqueueKeepsInv(t, CloseOpened(t.ui.active));
    if t.refs.openedRef.Some? && t.refs.openedRef != Some(p) && t.ui.active != Some(p) {
      var o, last := t.refs.openedRef.value, |t.queue|;
      if t.ui.active.None? || t.ui.active == Some(o) {
        assert Closes(u.queue[last], o) && forall j :: 0 <= j < last ==> !Live(u.queue[j], u.reconciles);
      }
    }
  }

  lemma FrameKeepsInv(s: State)
    requires Inv(s) && s.reconciles.frame.Some?
    ensures Inv(Next(s, Frame))
  {
    var t := s.(reconciles := s.reconciles.(frame := None));
    if s.refs.openedRef.Some? && ClosedInTime(s.queue, s.reconciles, s.refs.openedRef.value) {
      ClosedInTimeFewerLive(s.queue, s.reconciles, t.reconciles, s.refs.openedRef.value);
    }
    assert Inv(t);
    EnqueueKeepsInv(t, Reconcile(s.reconciles.frame.value, s.reconciles.updateBounds));
  }

  /** The operation may end here: without it the state is fine, and it is not the one still to be scheduled. */
  ghost predicate ReadyToFinish(s: State) {
    && Inv(s.(awaiting := Nothing, running := None))
    && (s.running.Some? ==> s.reconciles.frame != s.running && s.running.value < s.reconciles.nextIdentity)
  }

  lemma FinishedKeepsInv(s: State)
    requires ReadyToFinish(s)
    ensures Inv(Finished(s))
  {
    if s.refs.openedRef.Some? && ClosedInTime(s.queue, s.reconciles, s.refs.openedRef.value) {
      ClosedInTimeFewerLive(s.queue, s.reconciles, Finished(s).reconciles, s.refs.openedRef.value);
    }
  }

  /** What holds when a reconcile body starts: nothing stray is open, and nothing is being opened. */
  ghost predicate ReadyToReconcile(s: State) {
    && ReadyToFinish(s)
    && (s.refs.openedRef.Some? && s.ui.active.Some? ==> s.refs.openedRef == s.ui.active)
  }

  lemma ReconcileBodyKeepsInv(s: State, intent: nat, updateBounds: bool)
    requires ReadyToReconcile(s)
    ensures Inv(ReconcileBody(s, intent, updateBounds))
  {
    FinishedKeepsInv(s);
  }

  lemma AfterOpenKeepsInv(s: State, succeeded: bool)
    requires Inv(s) && s.awaiting.Opening?
    ensures Inv(AfterOpen(s, s.awaiting.intent, s.awaiting.provider, succeeded))
  {
    var intent, p := s.awaiting.intent, s.awaiting.provider;
    if succeeded && CanReconcile(s.ui, intent, p) {
      FinishedKeepsInv(s.(backend := {p},
                          refs := s.refs.(openingRef := None, openedRef := Some(p), visibleRef := Some(p))));
    } else if !succeeded {
      var t := s.(backend := {}, refs := s.refs.(openingRef := Without(s.refs.openingRef, p), surfaceRoot := None));
      FinishedKeepsInv(t);
      FinishedKeepsInv(t.(ui := t.ui.(active := None)));
    }
  }

  lemma AfterStaleKeepsInv(s: State)
    requires Inv(s) && s.awaiting.ClosingStale?
    ensures Inv(AfterStale(s, s.awaiting.provider))
  {
    FinishedKeepsInv(s.(backend := {}, refs := NO_REFS));
  }

  lemma AfterCloseAllKeepsInv(s: State, reopen: Option<Reopen>)
    requires Inv(s) && s.awaiting == ClosingAll(reopen)
    ensures Inv(AfterCloseAll(s, reopen))
  {
    var t := s.(backend := {}, refs := NO_REFS);
    FinishedKeepsInv(t);
    if reopen.Some? { ReconcileBodyKeepsInv(t, reopen.value.intent, false); }
  }

  lemma AfterCloseKeepsInv(s: State)
    requires Inv(s) && s.awaiting.Closing?
    ensures Inv(Settled(s, true)) && Settled(s, false) == Settled(s, true)
  {
    var p, r := s.awaiting.target, s.refs;
    var t := s.(backend := s.backend - {p},
                refs := Refs(Without(r.openingRef, p), Without(r.openedRef, p), Without(r.visibleRef, p), None));
    assert t.backend == Owned(t.refs.openedRef);
    if s.awaiting.next.Finish? { FinishedKeepsInv(t); }
  }

  lemma DisplayIsReady(s: State)
    requires Inv(s) && (s.awaiting.SettingBounds? || s.awaiting.Showing? || s.awaiting.Navigating?)
    ensures ReadyToFinish(s)
    ensures s.awaiting.Showing? ==> ReadyToFinish(s.(refs := s.refs.(visibleRef := Some(s.awaiting.provider))))
    ensures s.awaiting.SettingBounds? ==> Inv(s.(awaiting := Showing(s.awaiting.provider)))
  {
    hide ClosedInTime, Live;
  }

  /** Bounds, show and history commands leave the open surface alone. */
  lemma AfterDisplayKeepsInv(s: State, succeeded: bool)
    requires Inv(s) && (s.awaiting.SettingBounds? || s.awaiting.Showing? || s.awaiting.Navigating?)
    ensures Inv(Settled(s, succeeded))
  {
    hide Finished, Inv;
    DisplayIsReady(s);
    FinishedKeepsInv(s);
    if s.awaiting.Showing? { FinishedKeepsInv(s.(refs := s.refs.(visibleRef := Some(s.awaiting.provider)))); }
  }

  lemma SettleKeepsInv(s: State, succeeded: bool)
    requires Inv(s) && !s.awaiting.Nothing?
    ensures Inv(Settled(s, succeeded))
  {
    hide Inv, AfterOpen, AfterStale, AfterCloseAll, Finished, Continue;
    match s.awaiting
    case Closing(_, _) => AfterCloseKeepsInv(s);
    case ClosingAll(reopen) => AfterCloseAllKeepsInv(s, reopen);
    case Opening(_, _) => AfterOpenKeepsInv(s, succeeded);
    case ClosingStale(_) => AfterStaleKeepsInv(s);
    case _ => AfterDisplayKeepsInv(s, succeeded);
  }

  /** Taking the head off the queue keeps a close in time unless the head was that close. */
  lemma ClosedInTimeTail(queue: seq<Operation>, r: Reconciles, p: Provider)
    requires ClosedInTime(queue, r, p)
    ensures !Live(queue[0], r)
    ensures Closes(queue[0], p) || ClosedInTime(queue[1..], r, p)
  {}

  /** What the rest of the queue still owes once its head has been taken off. */
  ghost predicate Promised(s: State, op: Operation) {
    && (s.refs.openedRef.Some? && s.ui.active.Some? && s.refs.openedRef != s.ui.active ==>
          !Live(op, s.reconciles) &&
            (Closes(op, s.refs.openedRef.value) || ClosedInTime(s.queue, s.reconciles, s.refs.openedRef.value)))
    && (s.doomed && s.refs.openedRef.Some? ==> op.CloseAll? || exists k :: 0 <= k < |s.queue| && s.queue[k].CloseAll?)
  }

  lemma HeadKeepsPromise(s0: State)
    requires Inv(s0) && s0.awaiting.Nothing? && s0.queue != []
    ensures Promised(s0.(queue := s0.queue[1..]), s0.queue[0])
  {
    var op, s := s0.queue[0], s0.(queue := s0.queue[1..]);
    var stray := s.refs.openedRef.Some? && s.ui.active.Some? && s.refs.openedRef != s.ui.active;
    if stray { ClosedInTimeTail(s0.queue, s0.reconciles, s.refs.openedRef.value); }
    if k :| 0 <= k < |s0.queue| && s0.queue[k].CloseAll? {
      if k > 0 { assert s.queue[k - 1].CloseAll?; }
    }
  }

  lemma BeginLiveKeepsInv(s: State, op: Operation)
    requires Promised(s, op) && op.Reconcile? && s.reconciles.pending == Some(op.identity) && s.awaiting.Nothing?
    requires Mirrors(s) && IdentitiesOk(s) && DoomedCloses(s) && RootTracked(s) && OwnedByActive(s)
    requires s.refs.visibleRef.Some? ==> s.refs.visibleRef == s.refs.openedRef
    requires s.reconciles.frame != Some(op.identity)
    ensures Inv(if s.ui.viewport then ReconcileBody(s.(running := Some(op.identity)), s.ui.intent, op.updateBounds)
                else Finished(s.(running := Some(op.identity))))
  {
    var t := s.(running := Some(op.identity));
    assert t.(awaiting := Nothing, running := None) == s;
    assert Inv(s);
    FinishedKeepsInv(t);
    ReconcileBodyKeepsInv(t, t.ui.intent, op.updateBounds);
  }

  lemma BeginReconcileKeepsInv(s0: State)
    requires Inv(s0) && s0.awaiting.Nothing? && s0.queue != [] && s0.queue[0].Reconcile?
    ensures Inv(BeginNext(s0))
  {
    var op, s := s0.queue[0], s0.(queue := s0.queue[1..]);
    HeadKeepsPromise(s0);
    if s.reconciles.pending == Some(op.identity) {
      BeginLiveKeepsInv(s, op);
    }
  }

  /** The head awaits its first command: what it does not close itself is still closed by the rest of the queue. */
  lemma BeginPlainKeepsInv(s0: State, s: State, awaiting: Await)
    requires Inv(s0) && s0.awaiting.Nothing? && s0.queue != [] && s == s0.(queue := s0.queue[1..])
    requires Promised(s, s0.queue[0])
    requires match s0.queue[0]
             case CloseAll => awaiting == ClosingAll(None)
             case Navigate(_) => awaiting.Nothing? || awaiting.Navigating?
             case RootTransition(_) => awaiting.Nothing? || (awaiting.Closing? && awaiting.next.ThenCloseAll?)
             case _ => false
    ensures Inv(s.(awaiting := awaiting))
  {
    hide ClosedInTime, Live;
  }

  lemma BeginCloseKeepsInv(s0: State, s: State, target: Option<Provider>, next: After)
    requires Inv(s0) && s0.awaiting.Nothing? && s0.queue != [] && s == s0.(queue := s0.queue[1..])
    requires s0.queue[0] == (if next.Finish? then CloseOpened(target) else CloseProviderAndAll(target))
    requires Promised(s, s0.queue[0]) && (next.ThenCloseAll? ==> next.reopen.None?)
    ensures Inv(CloseThen(s, target, next))
  {
    hide ClosedInTime, Live;
  }

  lemma BeginOtherKeepsInv(s0: State)
    requires Inv(s0) && s0.awaiting.Nothing? && s0.queue != [] && !s0.queue[0].Reconcile?
    requires Promised(s0.(queue := s0.queue[1..]), s0.queue[0])
    ensures Inv(BeginNext(s0))
  {
    hide Inv, Promised, CloseThen, Finished;
    var s := s0.(queue := s0.queue[1..]);
    match s0.queue[0]
    case CloseOpened(target) => BeginCloseKeepsInv(s0, s, target, Finish);
    case CloseProviderAndAll(target) => BeginCloseKeepsInv(s0, s, target, ThenCloseAll(None));
    case CloseAll => BeginPlainKeepsInv(s0, s, ClosingAll(None));
    case Navigate(p) => BeginPlainKeepsInv(s0, s, if s.ui.active == Some(p) then Navigating else Nothing);
    case RootTransition(intent) =>
      BeginPlainKeepsInv(s0, s, Nothing);
      if s.ui.active.Some? {
        BeginPlainKeepsInv(s0, s, Closing(s.ui.active.value, ThenCloseAll(Some(Reopen(intent, s.ui.active.value)))));
      }
  }

  lemma BeginKeepsInv(s0: State)
    requires Inv(s0) && s0.awaiting.Nothing? && s0.queue != []
    ensures Inv(BeginNext(s0))
  {
    HeadKeepsPromise(s0);
    if s0.queue[0].Reconcile? { BeginReconcileKeepsInv(s0); } else { BeginOtherKeepsInv(s0); }
  }

  lemma UnmountTaskKeepsInv(s: State)
    requires Inv(s) && !s.ui.mounted
    ensures Inv(Enqueue(s, CloseAll).(doomed := true))
  {
    hide ClosedInTime;
    EnqueueKeepsInv(s, CloseAll);
    assert Enqueue(s, CloseAll).queue[|s.queue|].CloseAll?;
  }

  /** The steps that only append a close. */
  lemma ClosingStepKeepsInv(s: State, e: Event)
    requires Inv(s) && Possible(s, e)
    requires e.StartClearing? || e.StartModeChange? || e.GoBackOrForward? || e.UnmountTask? || e.LeaveWeb?
    ensures Inv(Next(s, e))
  {
    hide Inv, AdvanceIntent;
    AdvanceIntentKeepsInv(s);
    var t := AdvanceIntent(s);
    match e
    case StartClearing => EnqueueKeepsInv(t, CloseProviderAndAll(t.ui.active));
    case StartModeChange => EnqueueKeepsInv(t, CloseAll);
    case GoBackOrForward => if s.ui.active.Some? { EnqueueKeepsInv(s, Navigate(s.ui.active.value)); }
    case UnmountTask => UnmountTaskKeepsInv(s);
    case LeaveWeb =>
      LeavingKeepsInv(s, IsLeaving);
      var left := s.(ui := s.ui.(leaving := IsLeaving));
      AdvanceIntentKeepsInv(left);
      EnqueueKeepsInv(AdvanceIntent(left), CloseProviderAndAll(AdvanceIntent(left).ui.active));
  }

  /** The steps that only change what the UI publishes. */
  lemma UiStepKeepsInv(s: State, e: Event)
    requires Inv(s) && Possible(s, e) && (e.Render? || e.ForgetActive? || e.Unmount? || e.Remount?)
    ensures Inv(Next(s, e))
  {
    hide ClosedInTime, AdvanceIntent;
    if e.Unmount? { AdvanceIntentKeepsInv(s.(ui := s.ui.(mounted := false))); }
  }

  lemma PlainStepKeepsInv(s: State, e: Event)
    requires Inv(s) && Possible(s, e)
    requires !(e.Effect? || e.Resize? || e.Frame? || e.Select? || e.Begin? || e.Settle?)
    ensures Inv(Next(s, e))
  {
    hide Inv;
    if e.Render? || e.ForgetActive? || e.Unmount? || e.Remount? {
      UiStepKeepsInv(s, e);
    } else {
      ClosingStepKeepsInv(s, e);
    }
  }

  /** Every step, of the UI or of the running operation, keeps the invariant. */
  lemma NextKeepsInv(s: State, e: Event)
    requires Inv(s) && Possible(s, e)
    ensures Inv(Next(s, e))
  {
    match e
    case Effect(changed) => EffectKeepsInv(s, changed);
    case Resize => QueueReconcileKeepsInv(s, true);
    case Frame => FrameKeepsInv(s);
    case Select(p) => SelectKeepsInv(s, p);
    case Begin => BeginKeepsInv(s);
    case Settle(succeeded) => SettleKeepsInv(s, succeeded);
    case _ => PlainStepKeepsInv(s, e);
  }

  // ---------- Whole runs ----------

  /** `t` is reached from `s` by these events, in this order. */
  ghost predicate Reaches(s: State, events: seq<Event>, t: State)
    decreases |events|
  {
    if events == [] then t == s else Possible(s, events[0]) && Reaches(Next(s, events[0]), events[1..], t)
  }

  lemma {:induction false} RunKeepsInv(s: State, events: seq<Event>, t: State)
    requires Inv(s) && Reaches(s, events, t)
    ensures Inv(t)
    decreases |events|
  {
    if events == [] {
    } else {
      NextKeepsInv(s, events[0]);
      RunKeepsInv(Next(s, events[0]), events[1..], t);
    }
  }

  /**
   In every run, whenever no operation is running, the open webviews are exactly the one in the opened ref and
   nothing is marked as being opened. At most one webview is ever open, and the visible one is the opened one.
   */
  lemma BackendIsWhatTheRefsSay(active: Option<Provider>, root: nat, events: seq<Event>, t: State)
    requires Reaches(Initial(active, root), events, t)
    ensures t.awaiting.Nothing? ==> t.backend == Owned(t.refs.openedRef) && t.refs.openingRef.None?
    ensures forall p, q :: p in t.backend && q in t.backend ==> p == q
    ensures t.refs.visibleRef.Some? ==> t.refs.visibleRef.value in t.backend
  {
    RunKeepsInv(Initial(active, root), events, t);
  }

  /** A surface opened under another download root than the current one is never taken for up to date. */
  lemma RootChangeIsSeen(active: Option<Provider>, root: nat, events: seq<Event>, t: State)
    requires Reaches(Initial(active, root), events, t)
    requires t.refs.openedRef.Some? && t.issuedRoot != t.ui.downloadRoot
    ensures HasDownloadRootChange(t)
  {
    RunKeepsInv(Initial(active, root), events, t);
  }

  /** A browser without an active provider has no webview, whatever is queued or running. */
  lemma NothingIsOpenWithoutActive(active: Option<Provider>, root: nat, events: seq<Event>, t: State)
    requires Reaches(Initial(active, root), events, t) && t.ui.active.None?
    ensures t.backend == {} && t.refs == NO_REFS.(surfaceRoot := t.refs.surfaceRoot)
    ensures !t.awaiting.Opening? && !t.awaiting.ClosingStale?
  {
    RunKeepsInv(Initial(active, root), events, t);
  }

  /** Forgetting is possible when the close of all webviews that it waits for has settled. */
  lemma ForgettingFollowsTheClose(s: State, succeeded: bool)
    requires s.awaiting == ClosingAll(None)
    ensures Possible(Settled(s, succeeded), ForgetActive)
    ensures Next(Settled(s, succeeded), ForgetActive).ui.active.None?
  {
  }

  /** Once the queue has drained, no webview is open but that of the active provider, if there is one. */
  lemma DrainedShowsOnlyTheActiveProvider(active: Option<Provider>, root: nat, events: seq<Event>, t: State)
    requires Reaches(Initial(active, root), events, t)
    requires t.awaiting.Nothing? && t.queue == []
    ensures t.backend <= Owned(t.ui.active)
    ensures t.doomed ==> t.backend == {}
  {
    RunKeepsInv(Initial(active, root), events, t);
  }

  lemma BeginLeavesIntent(s: State)
    requires s.awaiting.Nothing? && s.queue != []
    ensures BeginNext(s).ui.intent == s.ui.intent && BeginNext(s).reconciles.cancelled == s.reconciles.cancelled
  {
    hide CanReconcile, Target;
  }

  lemma SettleLeavesIntent(s: State, succeeded: bool)
    requires !s.awaiting.Nothing?
    ensures Settled(s, succeeded).ui.intent == s.ui.intent
    ensures Settled(s, succeeded).reconciles.cancelled == s.reconciles.cancelled
  {
    hide CanReconcile, Without;
  }

  /** The running operation neither changes the intent nor cancels or schedules anything. */
  lemma OperationLeavesIntent(s: State, e: Event)
    requires Possible(s, e) && (e.Begin? || e.Settle?)
    ensures Next(s, e).ui.intent == s.ui.intent && Next(s, e).reconciles.cancelled == s.reconciles.cancelled
  {
    if e.Settle? { SettleLeavesIntent(s, e.succeeded); } else { BeginLeavesIntent(s); }
  }

  lemma CancelledGrows(s: State, e: Event)
    requires Possible(s, e)
    ensures s.reconciles.cancelled <= Next(s, e).reconciles.cancelled
  {
    hide CanReconcile, HasDownloadRootChange, BeginNext, Settled;
    if e.Begin? || e.Settle? { OperationLeavesIntent(s, e); }
  }

  /** A cancelled identity stays cancelled, so its operation only ever leaves the queue. */
  lemma {:induction false} CancelledReconcileNeverRuns(s: State, identity: nat, events: seq<Event>, t: State)
    requires Inv(s) && identity in s.reconciles.cancelled && Reaches(s, events, t)
    ensures identity in t.reconciles.cancelled
    ensures t.awaiting.Nothing? && t.queue != [] && t.queue[0].Reconcile? && t.queue[0].identity == identity ==>
              BeginNext(t) == t.(queue := t.queue[1..])
    decreases |events|
  {
    if events == [] {
    } else {
      NextKeepsInv(s, events[0]);
      CancelledGrows(s, events[0]);
      CancelledReconcileNeverRuns(Next(s, events[0]), identity, events[1..], t);
    }
  }

  /** Every intent change cancels the reconcile that was pending. */
  lemma IntentChangeCancels(s: State, e: Event)
    requires Inv(s) && Possible(s, e) && s.reconciles.pending.Some? && Next(s, e).ui.intent != s.ui.intent
    ensures s.reconciles.pending.value in Next(s, e).reconciles.cancelled
  {
    hide CanReconcile, HasDownloadRootChange, Inv, BeginNext, Settled;
    if e.Begin? || e.Settle? { OperationLeavesIntent(s, e); }
  }

  // ---------- Reconciles are not lost ----------

  /** A pending reconcile has its frame scheduled, waits in the queue, or is the one running. */
  ghost predicate Scheduled(s: State) {
    var p := s.reconciles.pending;
    p.Some? ==> s.reconciles.frame == p || s.running == p || !NotQueued(s.queue, p.value)
  }

  lemma StillQueued(queue: seq<Operation>, op: Operation, identity: nat)
    ensures !NotQueued(queue, identity) ==> !NotQueued(queue + [op], identity)
    ensures op.Reconcile? && op.identity == identity ==> !NotQueued(queue + [op], identity)
    ensures queue != [] && !NotQueued(queue, identity) && !(queue[0].Reconcile? && queue[0].identity == identity) ==>
              !NotQueued(queue[1..], identity)
  {
    if k :| 0 <= k < |queue| && queue[k].Reconcile? && queue[k].identity == identity {
      assert (queue + [op])[k] == queue[k];
      if k > 0 { assert queue[1..][k - 1] == queue[k]; }
    }
    assert (queue + [op])[|queue|] == op;
  }

  lemma EnqueueKeepsScheduled(s: State, op: Operation)
    requires Scheduled(s)
    ensures Scheduled(Enqueue(s, op))
  {
    if s.reconciles.pending.Some? { StillQueued(s.queue, op, s.reconciles.pending.value); }
  }

  lemma UiStepKeepsScheduled(s: State, e: Event)
    requires Inv(s) && Scheduled(s) && Possible(s, e) && !e.Begin? && !e.Settle?
    ensures Scheduled(Next(s, e))
  {
    hide Mirrors, NoStraySurface, DoomedCloses, NotQueued, HasDownloadRootChange;
    match e
    case GoBackOrForward => if s.ui.active.Some? { EnqueueKeepsScheduled(s, Navigate(s.ui.active.value)); }
    case UnmountTask => EnqueueKeepsScheduled(s, CloseAll);
    case Frame => StillQueued(s.queue, Reconcile(s.reconciles.frame.value, s.reconciles.updateBounds),
                              s.reconciles.frame.value);
    case _ =>
  }

  lemma BodyKeepsScheduled(s: State, intent: nat, updateBounds: bool)
    requires Scheduled(s)
    ensures Scheduled(Finished(s)) && Scheduled(ReconcileBody(s, intent, updateBounds))
  {
    hide NotQueued, CanReconcile;
  }

  lemma BeginKeepsScheduled(s0: State)
    requires Inv(s0) && Scheduled(s0) && s0.awaiting.Nothing? && s0.queue != []
    ensures Scheduled(BeginNext(s0))
  {
    hide Mirrors, NoStraySurface, DoomedCloses, NotQueued, ReconcileBody, Finished, Target;
    var op, s := s0.queue[0], s0.(queue := s0.queue[1..]);
    if s.reconciles.pending.Some? { StillQueued(s0.queue, op, s.reconciles.pending.value); }
    if op.Reconcile? && s.reconciles.pending == Some(op.identity) {
      var t := s.(running := Some(op.identity));
      BodyKeepsScheduled(t, t.ui.intent, op.updateBounds);
    } else {
      assert Scheduled(s);
      BodyKeepsScheduled(s, 0, false);
    }
  }

  lemma SettleKeepsScheduled(s: State, succeeded: bool)
    requires Scheduled(s) && !s.awaiting.Nothing?
    ensures Scheduled(Settled(s, succeeded))
  {
    hide NotQueued, CanReconcile, Without;
    if s.awaiting.ClosingAll? && s.awaiting.reopen.Some? {
      BodyKeepsScheduled(s.(backend := {}, refs := NO_REFS), s.awaiting.reopen.value.intent, false);
    }
  }

  lemma NextKeepsScheduled(s: State, e: Event)
    requires Inv(s) && Scheduled(s) && Possible(s, e)
    ensures Scheduled(Next(s, e))
  {
    hide Scheduled, Inv, BeginNext, Settled;
    if e.Begin? {
      BeginKeepsScheduled(s);
    } else if e.Settle? {
      SettleKeepsScheduled(s, e.succeeded);
    } else {
      UiStepKeepsScheduled(s, e);
    }
  }

  lemma {:induction false} RunKeepsScheduled(s: State, events: seq<Event>, t: State)
    requires Inv(s) && Scheduled(s) && Reaches(s, events, t)
    ensures Scheduled(t) && Inv(t)
    decreases |events|
  {
    hide Scheduled, Inv, Next, Possible;
    if events == [] {
    } else {
      NextKeepsInv(s, events[0]);
      NextKeepsScheduled(s, events[0]);
      RunKeepsScheduled(Next(s, events[0]), events[1..], t);
    }
  }

  /** Once everything has drained nothing is pending, so the next effect or resize does schedule a reconcile. */
  lemma NothingStaysPending(active: Option<Provider>, root: nat, events: seq<Event>, t: State)
    requires Reaches(Initial(active, root), events, t)
    requires t.awaiting.Nothing? && t.queue == [] && t.reconciles.frame.None?
    ensures t.reconciles.pending.None?
    ensures forall updateBounds :: QueueReconcile(t, updateBounds).reconciles.frame.Some?
  {
    RunKeepsScheduled(Initial(active, root), events, t);
  }

  // ---------- A covered view shows no surface ----------

  /** The settings cover the view, another view is shown, or the user is on the way out. */
  predicate Covered(ui: Ui) { !ui.web || ui.settingsOpen || !ui.leaving.NotLeaving? }

  /** The events that answer a covered view by closing what is open. */
  predicate Shuts(s: State, e: Event) {
    || (e.LeaveWeb? && s.ui.web)
    || (e.Effect? && !(e.downloadRootChanged && HasDownloadRootChange(s)) &&
        if s.ui.settingsOpen then s.ui.active.Some? else !s.ui.web)
  }

  /** Whether the view has been shut and covered ever since. */
  function ShutNext(s: State, shut: bool, e: Event): bool
    requires Possible(s, e)
  {
    (shut || Shuts(s, e)) && Covered(Next(s, e).ui)
  }

  function ShutAfter(s: State, shut: bool, events: seq<Event>, t: State): bool
    requires Reaches(s, events, t)
    decreases |events|
  {
    if events == [] then shut else ShutAfter(Next(s, events[0]), ShutNext(s, shut, events[0]), events[1..], t)
  }

  ghost predicate CloseQueued(queue: seq<Operation>, p: Provider) {
    exists k :: 0 <= k < |queue| && Closes(queue[k], p)
  }

  /** While shut, the close of whatever is open is under way. */
  ghost predicate ShutCloses(s: State, shut: bool) {
    shut ==> Covered(s.ui) && (s.refs.openedRef.Some? ==>
      ClosingNow(s.awaiting, s.refs.openedRef.value) || CloseQueued(s.queue, s.refs.openedRef.value))
  }

  lemma CloseStaysQueued(queue: seq<Operation>, op: Operation, p: Provider)
    ensures CloseQueued(queue, p) || Closes(op, p) ==> CloseQueued(queue + [op], p)
    ensures queue != [] && CloseQueued(queue, p) && !Closes(queue[0], p) ==> CloseQueued(queue[1..], p)
  {
    if k :| 0 <= k < |queue| && Closes(queue[k], p) {
      assert (queue + [op])[k] == queue[k];
      if k > 0 { assert queue[1..][k - 1] == queue[k]; }
    }
    assert (queue + [op])[|queue|] == op;
  }

  lemma StrayIsQueued(s: State)
    requires NoStraySurface(s) && s.refs.openedRef.Some? && s.ui.active.Some? && s.refs.openedRef != s.ui.active
    ensures ClosingNow(s.awaiting, s.refs.openedRef.value) || CloseQueued(s.queue, s.refs.openedRef.value)
  {
  }

  /** A step of the UI leaves the refs alone and at most appends to the queue. */
  lemma UiStepOnlyAppends(s: State, e: Event)
    requires Possible(s, e) && !e.Begin? && !e.Settle?
    ensures var t := Next(s, e);
            && t.refs == s.refs && t.awaiting == s.awaiting
            && (t.queue == s.queue || exists op :: t.queue == s.queue + [op])
            && (Shuts(s, e) && s.refs.openedRef.Some? && (s.ui.active.Some? ==> s.refs.openedRef == s.ui.active) ==>
                  CloseQueued(t.queue, s.refs.openedRef.value))
  {
    hide CloseQueued, CanReconcile;
    if s.refs.openedRef.Some? {
      CloseStaysQueued(s.queue, CloseOpened(s.ui.active), s.refs.openedRef.value);
      CloseStaysQueued(s.queue, CloseProviderAndAll(s.ui.active), s.refs.openedRef.value);
    }
  }

  lemma UiStepKeepsShut(s: State, shut: bool, e: Event)
    requires Inv(s) && ShutCloses(s, shut) && Possible(s, e) && !e.Begin? && !e.Settle?
    ensures ShutCloses(Next(s, e), ShutNext(s, shut, e))
  {
    hide Next, Shuts, Closes, CloseQueued, Mirrors, DoomedCloses, IdentitiesOk, NoStraySurface, Possible;
    UiStepOnlyAppends(s, e);
    var t := Next(s, e);
    if s.refs.openedRef.Some? {
      var p := s.refs.openedRef.value;
      if s.ui.active.Some? && s.refs.openedRef != s.ui.active { StrayIsQueued(s); }
      if op :| t.queue == s.queue + [op] { CloseStaysQueued(s.queue, op, p); }
    }
  }

  lemma BodyKeepsShut(s: State, intent: nat, updateBounds: bool)
    requires ShutCloses(s.(awaiting := Nothing, running := None), true)
    ensures ShutCloses(Finished(s), true) && ShutCloses(ReconcileBody(s, intent, updateBounds), true)
  {
    hide CloseQueued;
  }

  lemma BeginKeepsShut(s0: State)
    requires ShutCloses(s0, true) && s0.awaiting.Nothing? && s0.queue != []
    ensures ShutCloses(BeginNext(s0), true)
  {
    hide CloseQueued, ReconcileBody, Finished;
    var op, s := s0.queue[0], s0.(queue := s0.queue[1..]);
    if s.refs.openedRef.Some? { CloseStaysQueued(s0.queue, op, s.refs.openedRef.value); }
    if s.refs.openedRef.None? || !Closes(op, s.refs.openedRef.value) {
      var t := if op.Reconcile? then s.(running := Some(op.identity)) else s;
      BodyKeepsShut(t, s.ui.intent, op.Reconcile? && op.updateBounds);
      BodyKeepsShut(s, 0, false);
    }
  }

  lemma SettleKeepsShut(s: State, succeeded: bool)
    requires Inv(s) && ShutCloses(s, true) && !s.awaiting.Nothing?
    ensures Covered(Settled(s, succeeded).ui) ==> ShutCloses(Settled(s, succeeded), true)
  {
    hide CloseQueued, NoStraySurface, DoomedCloses, IdentitiesOk, Closes;
    if s.awaiting.ClosingAll? && s.awaiting.reopen.Some? {
      BodyKeepsShut(s.(backend := {}, refs := NO_REFS), s.awaiting.reopen.value.intent, false);
    }
  }

  lemma NotShutIsFine(s: State)
    ensures ShutCloses(s, false)
  {
  }

  lemma NextKeepsShut(s: State, shut: bool, e: Event)
    requires Inv(s) && ShutCloses(s, shut) && Possible(s, e)
    ensures ShutCloses(Next(s, e), ShutNext(s, shut, e))
  {
    hide ShutCloses, Inv, BeginNext, Settled, Covered;
    if e.Begin? {
      if shut { BeginKeepsShut(s); }
    } else if e.Settle? {
      if shut { SettleKeepsShut(s, e.succeeded); }
    } else {
      UiStepKeepsShut(s, shut, e);
    }
    NotShutIsFine(Next(s, e));
  }

  lemma {:induction false} RunKeepsShut(s: State, shut: bool, events: seq<Event>, t: State)
    requires Inv(s) && ShutCloses(s, shut) && Reaches(s, events, t)
    ensures ShutCloses(t, ShutAfter(s, shut, events, t)) && Inv(t)
    decreases |events|
  {
    hide ShutCloses, ShutNext, Inv, Next, Possible;
    if events == [] {
    } else {
      NextKeepsInv(s, events[0]);
      NextKeepsShut(s, shut, events[0]);
      RunKeepsShut(Next(s, events[0]), ShutNext(s, shut, events[0]), events[1..], t);
    }
  }

  /**
   Once the view has been left or covered by the settings and stays so, the queue drains to a backend without any
   webview, which would otherwise lie over the other view.
   */
  lemma CoveredViewEndsEmpty(active: Option<Provider>, root: nat, events: seq<Event>, t: State)
    requires Reaches(Initial(active, root), events, t) && ShutAfter(Initial(active, root), false, events, t)
    requires t.awaiting.Nothing? && t.queue == []
    ensures t.backend == {}
  {
    RunKeepsShut(Initial(active, root), false, events, t);
  }

  // ---------- An open overtaken by a newer intent ----------

  /** The open of `p` for an old intent: still running, being closed as stale, or over with `p` closed. */
  ghost predicate OvertakenOpen(s: State, p: Provider) {
    || (s.awaiting.Opening? && s.awaiting.provider == p && s.awaiting.intent < s.ui.intent && s.backend == {})
    || (s.awaiting.ClosingStale? && s.awaiting.provider == p)
    || (s.awaiting.Nothing? && s.backend == {} && s.refs.openedRef.None? && s.refs.openingRef.None?)
  }

  /** The UI leaves the running operation alone and never takes an intent back. */
  lemma UiStepLeavesOperation(s: State, e: Event)
    requires Possible(s, e) && !e.Begin? && !e.Settle?
    ensures var t := Next(s, e);
            t.awaiting == s.awaiting && t.refs == s.refs && t.backend == s.backend && t.ui.intent >= s.ui.intent
  {
    hide HasDownloadRootChange;
  }

  lemma OvertakenOpenSettles(s: State, p: Provider, succeeded: bool)
    requires Mirrors(s) && OvertakenOpen(s, p) && !s.awaiting.Nothing?
    ensures OvertakenOpen(Settled(s, succeeded), p)
  {}

  lemma OvertakenOpenStep(s: State, p: Provider, e: Event)
    requires Inv(s) && OvertakenOpen(s, p) && Possible(s, e) && !e.Begin?
    ensures OvertakenOpen(Next(s, e), p)
  {
    hide HasDownloadRootChange, NoStraySurface, DoomedCloses, IdentitiesOk, Settled;
    if e.Settle? { OvertakenOpenSettles(s, p, e.succeeded); } else { hide Next; UiStepLeavesOperation(s, e); }
  }

  lemma {:induction false} OvertakenOpenRun(s: State, p: Provider, events: seq<Event>, t: State)
    requires Inv(s) && OvertakenOpen(s, p) && Begin !in events && Reaches(s, events, t)
    ensures Inv(t) && OvertakenOpen(t, p)
    decreases |events|
  {
    if events == [] {
    } else {
      NextKeepsInv(s, events[0]);
      OvertakenOpenStep(s, p, events[0]);
      OvertakenOpenRun(Next(s, events[0]), p, events[1..], t);
    }
  }

  /**
   An open overtaken by a newer intent never becomes the opened surface: when its own operation ends, before
   any other operation begins, nothing is open.
   */
  lemma OvertakenOpenIsClosed(s: State, events: seq<Event>, t: State)
    requires Inv(s) && s.awaiting.Opening? && s.awaiting.intent < s.ui.intent
    requires Begin !in events && Reaches(s, events, t)
    ensures t.awaiting.Nothing? ==> t.backend == {} && t.refs.openedRef.None? && t.refs.openingRef.None?
    ensures !t.awaiting.Nothing? ==> t.refs.openedRef.None? && t.refs.openingRef == Some(s.awaiting.provider)
  {
    OvertakenOpenRun(s, s.awaiting.provider, events, t);
  }
}
