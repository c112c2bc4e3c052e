/**
 The Freesound workspace hook: overlapping async operations guarded by a generation counter, one busy flag, and
 the object URL of the preview being played. A step is the code between two awaits.
 */
module FreesoundWorkspaces {
  import opened Options

  /** An operation whose command has not settled yet, with what it captured when it started. */
  datatype Flight = Search | SaveKey | DeleteKey | FetchPreview(previewGeneration: nat) | Download | NotifyDownloaded

  /**
   In-flight operations are keyed by their generation. Object URLs are numbered as `createObjectURL` hands them
   out, and `resultsFrom` is the generation of the operation that last wrote the search results.
   */
  datatype State = State(previewUrl: Option<nat>, previewGeneration: nat, operationGeneration: nat, requestBusy: bool,
                         enabled: bool, mounted: bool, flights: map<nat, Flight>, nextUrl: nat, revoked: multiset<nat>,
                         resultsFrom: nat)

  function Initial(enabled: bool): State {
    State(None, 0, 0, false, enabled, true, map[], 0, multiset{}, 0)
  }

  datatype Event =
    | Render(enabled: bool)
    | EnabledEffect(enabled: bool)
    | Mount
    | Unmount
    | StopRequested
    | PlaybackFailed(url: nat)
    | StartSearch(blankQuery: bool)
    | StartSaveKey
    | StartDeleteKey
    | StartPreview
    | StartDownload(hasRoot: bool)
    | Settle(generation: nat, succeeded: bool)

  function StopPreview(s: State): State {
    s.(previewGeneration := s.previewGeneration + 1, previewUrl := None,
       revoked := if s.previewUrl.Some? then s.revoked + multiset{s.previewUrl.value} else s.revoked)
  }

  predicate CanStart(s: State) { !s.requestBusy && s.enabled }

  function Started(s: State, flight: Flight): State {
    var generation := s.operationGeneration + 1;
    s.(operationGeneration := generation, requestBusy := true, flights := s.flights[generation := flight])
  }

  predicate IsCurrent(s: State, generation: nat) {
    s.mounted && s.enabled && s.operationGeneration == generation
  }

  /** The `finally` block: only the operation of the current generation clears the busy flag. */
  function Finished(s: State, generation: nat): State {
    s.(flights := s.flights - {generation}, requestBusy := s.requestBusy && s.operationGeneration != generation)
  }

  /** A fetched preview becomes an object URL, which is played only if nothing overtook the fetch. */
  function Previewed(s: State, generation: nat, previewGeneration: nat): State {
    var url, t := s.nextUrl, s.(nextUrl := s.nextUrl + 1);
    if IsCurrent(s, generation) && s.previewGeneration == previewGeneration then t.(previewUrl := Some(url))
    else t.(revoked := t.revoked + multiset{url})
  }

  function Settled(s: State, generation: nat, succeeded: bool): State
    requires generation in s.flights
  {
    if !succeeded then Finished(s, generation)
    else match s.flights[generation]
      case FetchPreview(p) => Finished(Previewed(s, generation, p), generation)
      case Download =>
        if IsCurrent(s, generation) then s.(flights := s.flights[generation := NotifyDownloaded])
        else Finished(s, generation)
      case NotifyDownloaded => Finished(s, generation)
      case SaveKey => Finished(s, generation)
      case _ => Finished(if IsCurrent(s, generation) then s.(resultsFrom := generation) else s, generation)
  }

  predicate Possible(s: State, e: Event) { e.Settle? ==> e.generation in s.flights }

  function Next(s: State, e: Event): State
    requires Possible(s, e)
  {
    match e
    case Render(enabled) => s.(enabled := enabled)
    case EnabledEffect(enabled) =>
      if enabled then s else StopPreview(s.(operationGeneration := s.operationGeneration + 1, requestBusy := false))
    case Mount => s.(mounted := true)
    case Unmount => StopPreview(s.(mounted := false))
    case StopRequested => StopPreview(s)
    case PlaybackFailed(url) => if s.previewUrl != Some(url) then s else StopPreview(s)
    case StartSearch(blank) => if !CanStart(s) || blank then s else Started(StopPreview(s), Search)
    case StartSaveKey => if !CanStart(s) then s else Started(s, SaveKey)
    case StartDeleteKey => if !CanStart(s) then s else StopPreview(Started(s, DeleteKey))
    case StartPreview =>
      if !CanStart(s) then s else Started(StopPreview(s), FetchPreview(s.previewGeneration + 1))
    case StartDownload(hasRoot) => if !CanStart(s) || !hasRoot then s else Started(s, Download)
    case Settle(generation, succeeded) => Settled(s, generation, succeeded)
  }

  // ---------- The invariant ----------

  /** Every URL created is either the one being played or has been revoked exactly once. */
  ghost predicate UrlsAccounted(s: State) {
    && (s.previewUrl.Some? ==> s.previewUrl.value < s.nextUrl)
    && forall url: nat :: s.revoked[url] == if url < s.nextUrl && s.previewUrl != Some(url) then 1 else 0
  }

  /** The busy flag is set exactly while the operation of the current generation is in flight. */
  ghost predicate BusyIsCurrent(s: State) {
    && (s.requestBusy <==> s.operationGeneration in s.flights)
    && (forall g :: g in s.flights ==> 0 < g <= s.operationGeneration)
  }

  predicate FetchedBefore(s: State, generation: nat) {
    generation in s.flights && s.flights[generation].FetchPreview? ==>
      s.flights[generation].previewGeneration <= s.previewGeneration
  }

  /** The operations that stop the preview when they start. */
  predicate Stops(flight: Flight) { flight.Search? || flight.DeleteKey? || flight.FetchPreview? }

  /** While the current operation is one that stopped the preview, nothing is being played. */
  predicate Unplayed(s: State, generation: nat) {
    && FetchedBefore(s, generation)
    && (generation == s.operationGeneration && generation in s.flights && Stops(s.flights[generation]) ==>
        s.previewUrl.None?)
  }

  ghost predicate Inv(s: State) {
    && UrlsAccounted(s) && BusyIsCurrent(s)
    && (forall g :: g in s.flights ==> Unplayed(s, g))
    && s.resultsFrom <= s.operationGeneration
    && (!s.mounted ==> s.previewUrl.None?)
  }

  lemma StopPreviewKeepsInv(s: State)
    requires UrlsAccounted(s) && BusyIsCurrent(s) && (forall g :: g in s.flights ==> FetchedBefore(s, g))
    requires s.resultsFrom <= s.operationGeneration
    ensures Inv(StopPreview(s)) && forall g :: g in s.flights && s.flights[g].FetchPreview? ==>
              s.flights[g].previewGeneration < StopPreview(s).previewGeneration
  {
    var t := StopPreview(s);
    forall g | g in t.flights ensures Unplayed(t, g) { assert FetchedBefore(s, g); }
  }

  lemma StartedPlaysNothing(s: State, flight: Flight)
    requires Inv(s) && CanStart(s) && (!Stops(flight) || s.previewUrl.None?)
    requires flight.FetchPreview? ==> flight.previewGeneration == s.previewGeneration
    ensures Inv(Started(s, flight))
  {
    var t := Started(s, flight);
    forall g | g in t.flights ensures Unplayed(t, g) { if g in s.flights { assert Unplayed(s, g); } }
  }

  lemma StartedKeepsInv(s: State, flight: Flight)
    requires Inv(s) && CanStart(s)
    requires flight.FetchPreview? ==> flight.previewGeneration == s.previewGeneration
    ensures forall g :: g in Started(s, flight).flights ==> FetchedBefore(Started(s, flight), g)
    ensures UrlsAccounted(Started(s, flight)) && BusyIsCurrent(Started(s, flight))
    ensures !Stops(flight) || s.previewUrl.None? ==> Inv(Started(s, flight))
  {
    var t := Started(s, flight);
    forall g | g in t.flights ensures FetchedBefore(t, g) { if g in s.flights { assert Unplayed(s, g); } }
    if !Stops(flight) || s.previewUrl.None? { StartedPlaysNothing(s, flight); }
  }

  lemma FinishedKeepsInv(s: State, generation: nat)
    requires Inv(s)
    ensures Inv(Finished(s, generation))
  {
    var t := Finished(s, generation);
    forall g | g in t.flights ensures Unplayed(t, g) { assert Unplayed(s, g); }
  }

  lemma PreviewedKeepsUrls(s: State, generation: nat)
    requires Inv(s) && generation in s.flights && s.flights[generation].FetchPreview?
    ensures Inv(Finished(Previewed(s, generation, s.flights[generation].previewGeneration), generation))
  {
    var p := s.flights[generation].previewGeneration;
    var t := Finished(Previewed(s, generation, p), generation);
    assert Unplayed(s, generation);
    forall g | g in t.flights ensures Unplayed(t, g) { assert Unplayed(s, g); }
  }

  lemma ResultsKeepInv(s: State, generation: nat)
    requires Inv(s) && generation in s.flights
    ensures Inv(Finished(s.(resultsFrom := generation), generation))
  {
    var t := s.(resultsFrom := generation);
    forall g | g in t.flights ensures Unplayed(t, g) { assert Unplayed(s, g); }
    FinishedKeepsInv(t, generation);
  }

  lemma SettledKeepsInv(s: State, generation: nat, succeeded: bool)
    requires Inv(s) && generation in s.flights
    ensures Inv(Settled(s, generation, succeeded))
  {
    FinishedKeepsInv(s, generation);
    if succeeded {
      match s.flights[generation]
      case FetchPreview(_) => PreviewedKeepsUrls(s, generation);
      case Download =>
        var t := s.(flights := s.flights[generation := NotifyDownloaded]);
        forall g | g in t.flights ensures Unplayed(t, g) { assert Unplayed(s, g); }
      case NotifyDownloaded =>
      case SaveKey =>
      case _ => ResultsKeepInv(s, generation);
    }
  }

  lemma UrlsDependOnUrls(s: State)
    requires UrlsAccounted(s)
    ensures forall t: State :: t.previewUrl == s.previewUrl && t.nextUrl == s.nextUrl && t.revoked == s.revoked ==>
            UrlsAccounted(t)
  {
  }

  lemma UiStepKeepsInv(s: State, e: Event)
    requires Inv(s) && (e.Render? || e.EnabledEffect? || e.Mount? || e.Unmount? || e.StopRequested? ||
                        e.PlaybackFailed?)
    ensures Inv(Next(s, e))
  {
    hide StopPreview, UrlsAccounted, CanStart, Started, Settled;
    UrlsDependOnUrls(s);
    var t := match e
      case Render(enabled) => s.(enabled := enabled)
      case EnabledEffect(_) => s.(operationGeneration := s.operationGeneration + 1, requestBusy := false)
      case Mount => s.(mounted := true)
      case Unmount => s.(mounted := false)
      case _ => s;
    forall g | g in t.flights ensures Unplayed(t, g) { assert Unplayed(s, g); }
    StopPreviewKeepsInv(t);
  }

  lemma StartKeepsInv(s: State, e: Event)
    requires Inv(s) && (e.StartSearch? || e.StartSaveKey? || e.StartDeleteKey? || e.StartPreview? || e.StartDownload?)
    ensures Inv(Next(s, e))
  {
    if CanStart(s) {
      StopPreviewKeepsInv(s);
      match e
      case StartSearch(_) => StartedKeepsInv(StopPreview(s), Search);
      case StartPreview => StartedKeepsInv(StopPreview(s), FetchPreview(s.previewGeneration + 1));
      case StartDeleteKey => StartedKeepsInv(s, DeleteKey); StopPreviewKeepsInv(Started(s, DeleteKey));
      case StartSaveKey => StartedKeepsInv(s, SaveKey);
      case StartDownload(_) => StartedKeepsInv(s, Download);
    }
  }

  /** Every step, whatever operations overlap, keeps the invariant. */
  lemma NextKeepsInv(s: State, e: Event)
    requires Inv(s) && Possible(s, e)
    ensures Inv(Next(s, e))
  {
    match e
    case Settle(generation, succeeded) => SettledKeepsInv(s, generation, succeeded);
    case Render(_) => UiStepKeepsInv(s, e);
    case EnabledEffect(_) => UiStepKeepsInv(s, e);
    case Mount => UiStepKeepsInv(s, e);
    case Unmount => UiStepKeepsInv(s, e);
    case StopRequested => UiStepKeepsInv(s, e);
    case PlaybackFailed(_) => UiStepKeepsInv(s, e);
    case _ => StartKeepsInv(s, e);
  }

  // ---------- Whole runs ----------

  ghost predicate Reaches(s: State, events: seq<Event>, t: State)
    decreases |events|
  {
    if events == [] then t == s else Possible(s, events[0]) && Reaches(Next(s, events[0]), events[1..], t)
  }

  lemma {:induction false} RunKeepsInv(s: State, events: seq<Event>, t: State)
    requires Inv(s) && Reaches(s, events, t)
    ensures Inv(t)
    decreases |events|
  {
    if events == [] {
    } else {
      NextKeepsInv(s, events[0]);
      RunKeepsInv(Next(s, events[0]), events[1..], t);
    }
  }

  /**
   Across all interleavings: a created URL is either the one in the ref or was revoked, once; at most one is live;
   none is live after an unmount; and the busy flag tells whether the current operation is in flight.
   */
  lemma EveryUrlIsPlayedOrRevoked(enabled: bool, events: seq<Event>, t: State)
    requires Reaches(Initial(enabled), events, t)
    ensures forall url :: 0 <= url < t.nextUrl ==> t.revoked[url] == if t.previewUrl == Some(url) then 0 else 1
    ensures forall a, b :: 0 <= a < b < t.nextUrl ==> t.revoked[a] + t.revoked[b] >= 1
    ensures !t.mounted ==> forall url :: 0 <= url < t.nextUrl ==> t.revoked[url] == 1
    ensures t.requestBusy <==> t.operationGeneration in t.flights
    ensures t.requestBusy && Stops(t.flights[t.operationGeneration]) ==> t.previewUrl.None?
  {
    RunKeepsInv(Initial(enabled), events, t);
    assert forall url: nat :: url < t.nextUrl ==> t.revoked[url] == if t.previewUrl == Some(url) then 0 else 1;
  }

  /** A late operation of an older generation leaves the flag, the preview and the results to the newer one. */
  lemma LateOperationIsHarmless(s: State, generation: nat, succeeded: bool)
    requires Inv(s) && generation in s.flights && generation != s.operationGeneration
    ensures var t := Settled(s, generation, succeeded);
            && t.requestBusy == s.requestBusy && t.previewUrl == s.previewUrl && t.resultsFrom == s.resultsFrom
            && t.flights == s.flights - {generation}
  {
    hide UrlsAccounted, Unplayed;
    assert forall g :: g in s.flights - {generation} ==> (s.flights - {generation})[g] == s.flights[g];
  }

  /**
   Every operation that settles is over, but for a current download, whose path is still handed on. The flag falls with
   the current one, and a failure changes nothing else.
   */
  lemma SettlingEnds(s: State, generation: nat, succeeded: bool)
    requires Inv(s) && generation in s.flights
    ensures var t := Next(s, Settle(generation, succeeded));
            && (if succeeded && s.flights[generation].Download? && IsCurrent(s, generation)
                then t.flights == s.flights[generation := NotifyDownloaded] && t.requestBusy
                else t.flights == s.flights - {generation} &&
                     (t.requestBusy <==> s.requestBusy && generation != s.operationGeneration))
            && (!succeeded ==> t == s.(flights := t.flights, requestBusy := t.requestBusy))
  {
    hide UrlsAccounted, Unplayed;
  }

  lemma ResultsStep(s: State, e: Event)
    requires Inv(s) && Possible(s, e)
    ensures s.resultsFrom <= Next(s, e).resultsFrom
  {
    hide UrlsAccounted, Unplayed;
  }

  /** Results are only ever replaced by those of a later operation. */
  lemma {:induction false} ResultsNeverGoBack(s: State, events: seq<Event>, t: State)
    requires Inv(s) && Reaches(s, events, t)
    ensures s.resultsFrom <= t.resultsFrom
    decreases |events|
  {
    hide Inv, Next, Possible;
    if events == [] {
    } else {
      NextKeepsInv(s, events[0]);
      ResultsStep(s, events[0]);
      ResultsNeverGoBack(Next(s, events[0]), events[1..], t);
    }
  }

  /** Nothing plays and nothing is busy. */
  predicate Silent(s: State) { s.previewUrl.None? && !s.requestBusy }

  lemma {:induction false} SilentRun(s: State, events: seq<Event>, t: State)
    requires Inv(s) && Silent(s) && !s.enabled && Reaches(s, events, t) && Render(true) !in events
    ensures Silent(t) && !t.enabled
    decreases |events|
  {
    if events == [] {
    } else {
      NextKeepsInv(s, events[0]);
      SilentRun(Next(s, events[0]), events[1..], t);
    }
  }

  /** Once disabled, the workspace stays silent until a render enables it again, whatever is still in flight. */
  lemma {:induction false} DisabledStaysSilent(s: State, events: seq<Event>, t: State)
    requires Inv(s) && !s.enabled && Reaches(Next(s, EnabledEffect(false)), events, t)
    requires Render(true) !in events
    ensures t.previewUrl.None? && !t.requestBusy && !t.enabled
  {
    NextKeepsInv(s, EnabledEffect(false));
    SilentRun(Next(s, EnabledEffect(false)), events, t);
  }

  // ---------- The hook itself ----------

  /** What stopping the preview needs: everything but that nothing plays. */
  ghost predicate Stoppable(s: State) {
    && UrlsAccounted(s) && BusyIsCurrent(s) && s.resultsFrom <= s.operationGeneration
    && forall g :: g in s.flights ==> FetchedBefore(s, g)
  }

  /** Every URL ever created has been revoked, exactly once. */
  ghost predicate AllRevoked(s: State) { forall url :: 0 <= url < s.nextUrl ==> s.revoked[url] == 1 }

  lemma StoppedRevokesAll(s: State)
    requires Stoppable(s)
    ensures Inv(StopPreview(s)) && AllRevoked(StopPreview(s))
  {
    StopPreviewKeepsInv(s);
  }

  lemma StillStoppable(s: State, generation: nat, busy: bool, mounted: bool)
    requires Inv(s)
    requires (generation == s.operationGeneration && busy == s.requestBusy) ||
             (generation == s.operationGeneration + 1 && !busy)
    ensures Stoppable(s.(operationGeneration := generation, requestBusy := busy, mounted := mounted))
  {
    var t := s.(operationGeneration := generation, requestBusy := busy, mounted := mounted);
    forall g | g in t.flights ensures FetchedBefore(t, g) { assert Unplayed(s, g); }
  }

  lemma StartedIsStoppable(s: State, flight: Flight)
    requires Inv(s) && CanStart(s) && !flight.FetchPreview?
    ensures Stoppable(Started(s, flight))
  {
    StartedKeepsInv(s, flight);
  }

  lemma NewUrlIsUnrevoked(s: State)
    requires Inv(s)
    ensures s.revoked[s.nextUrl] == 0
  {}

  lemma CurrentIsBusy(s: State, generation: nat)
    requires Inv(s) && generation in s.flights
    ensures generation == s.operationGeneration ==> s.requestBusy && s.resultsFrom <= generation
  {}

  /** The refs of the hook; every method is one step of the protocol. */
  class FreesoundWorkspace {
    var previewUrl: Option<nat>
    var previewGeneration: nat
    var operationGeneration: nat
    var requestBusy: bool
    var enabled: bool
    var mounted: bool
    ghost var flights: map<nat, Flight>
    var nextUrl: nat
    ghost var revoked: multiset<nat>
    ghost var resultsFrom: nat

    ghost function View(): State
      reads this
    {
      State(previewUrl, previewGeneration, operationGeneration, requestBusy, enabled, mounted, flights, nextUrl,
            revoked, resultsFrom)
    }

    ghost predicate Valid()
      reads this
    {
      Inv(View())
    }

    constructor (enabled: bool)
      ensures Valid() && View() == Initial(enabled)
    {
      previewUrl, previewGeneration, operationGeneration, requestBusy := None, 0, 0, false;
      this.enabled, mounted, flights, nextUrl, revoked, resultsFrom := enabled, true, map[], 0, multiset{}, 0;
    }

    method RevokeObjectURL(url: nat)
      modifies this`revoked
      ensures revoked == old(revoked) + multiset{url}
    {
      revoked := revoked + multiset{url};
    }

    method CreateObjectURL() returns (url: nat)
      modifies this`nextUrl
      ensures url == old(nextUrl) && nextUrl == old(nextUrl) + 1
    {
      url := nextUrl;
      nextUrl := nextUrl + 1;
    }

    /** Nothing plays any more, every URL ever created is revoked, and no fetch in flight can publish a preview. */
    method Stop()
      requires Stoppable(View())
      modifies this`previewGeneration, this`previewUrl, this`revoked
      ensures Valid() && View() == StopPreview(old(View()))
      ensures previewUrl.None? && AllRevoked(View())
      ensures forall g :: g in flights && flights[g].FetchPreview? ==> flights[g].previewGeneration < previewGeneration
    {
      hide UrlsAccounted, BusyIsCurrent;
      StopPreviewKeepsInv(View());
      StoppedRevokesAll(View());
      previewGeneration := previewGeneration + 1;
      if previewUrl.Some? { RevokeObjectURL(previewUrl.value); }
      previewUrl := None;
    }

    /** The URL that failed no longer plays; the failure of any other URL changes nothing. */
    method FailPreview(url: nat)
      requires Valid()
      modifies this`previewGeneration, this`previewUrl, this`revoked
      ensures Valid() && View() == Next(old(View()), PlaybackFailed(url))
      ensures previewUrl != Some(url)
      ensures if old(previewUrl) == Some(url) then AllRevoked(View()) else View() == old(View())
    {
      if previewUrl != Some(url) { return; }
      StillStoppable(View(), operationGeneration, requestBusy, mounted);
      Stop();
    }

    /** Silent at once, with every operation still in flight overtaken. */
    method Disable()
      requires Valid()
      modifies this`operationGeneration, this`requestBusy, this`previewGeneration, this`previewUrl, this`revoked
      ensures Valid() && View() == Next(old(View()), EnabledEffect(false))
      ensures previewUrl.None? && !requestBusy && AllRevoked(View())
      ensures forall g :: g in flights ==> g < operationGeneration
    {
      StillStoppable(View(), operationGeneration + 1, false, mounted);
      operationGeneration := operationGeneration + 1;
      requestBusy := false;
      Stop();
    }

    /** Nothing plays after an unmount, but the operation in flight stays current and busy. */
    method UnmountHook()
      requires Valid()
      modifies this`mounted, this`previewGeneration, this`previewUrl, this`revoked
      ensures Valid() && View() == Next(old(View()), Unmount)
      ensures previewUrl.None? && AllRevoked(View()) && forall g :: !IsCurrent(View(), g)
    {
      StillStoppable(View(), operationGeneration, requestBusy, false);
      mounted := false;
      Stop();
    }

    /** The new operation is the one of the current generation, and no older one has that generation. */
    method TakeGeneration(flight: Flight) returns (generation: nat)
      modifies this`operationGeneration, this`requestBusy, this`flights
      ensures View() == Started(old(View()), flight) && generation == operationGeneration && requestBusy
      ensures old(Valid()) ==> generation !in old(flights) && forall g :: g in old(flights) ==> g < generation
    {
      operationGeneration := operationGeneration + 1;
      generation := operationGeneration;
      requestBusy := true;
      flights := flights[generation := flight];
    }

    /** Accepted only when idle, enabled and not blank; then busy and silent until it settles. */
    method BeginSearch(blankQuery: bool)
      requires Valid()
      modifies this
      ensures Valid() && View() == Next(old(View()), StartSearch(blankQuery))
      ensures if old(requestBusy) || !old(enabled) || blankQuery then View() == old(View())
              else requestBusy && flights == old(flights)[operationGeneration := Search] && AllRevoked(View())
    {
      hide Inv, Stoppable;
      StartKeepsInv(View(), StartSearch(blankQuery));
      if requestBusy || !enabled || blankQuery { return; }
      StillStoppable(View(), operationGeneration, requestBusy, mounted);
      Stop();
      var _ := TakeGeneration(Search);
    }

    /** Saving a key leaves the preview playing. */
    method BeginSaveKey()
      requires Valid()
      modifies this
      ensures Valid() && View() == Next(old(View()), StartSaveKey)
      ensures previewUrl == old(previewUrl) && revoked == old(revoked)
      ensures if old(requestBusy) || !old(enabled) then View() == old(View())
              else requestBusy && flights == old(flights)[operationGeneration := SaveKey]
    {
      hide Inv;
      StartKeepsInv(View(), StartSaveKey);
      if requestBusy || !enabled { return; }
      var _ := TakeGeneration(SaveKey);
    }

    /** Deleting the key silences the preview. */
    method BeginDeleteKey()
      requires Valid()
      modifies this
      ensures Valid() && View() == Next(old(View()), StartDeleteKey)
      ensures if old(requestBusy) || !old(enabled) then View() == old(View())
              else requestBusy && flights == old(flights)[operationGeneration := DeleteKey] && AllRevoked(View())
    {
      hide Inv, Stoppable;
      StartKeepsInv(View(), StartDeleteKey);
      if requestBusy || !enabled { return; }
      StartedIsStoppable(View(), DeleteKey);
      var _ := TakeGeneration(DeleteKey);
      Stop();
    }

    /** The old preview stops, and the fetch may publish only while both generations it captured stay current. */
    method BeginPreview()
      requires Valid()
      modifies this
      ensures Valid() && View() == Next(old(View()), StartPreview)
      ensures if old(requestBusy) || !old(enabled) then View() == old(View())
              else
                && requestBusy && AllRevoked(View())
                && flights == old(flights)[operationGeneration := FetchPreview(previewGeneration)]
    {
      hide Inv, Stoppable;
      StartKeepsInv(View(), StartPreview);
      if requestBusy || !enabled { return; }
      StillStoppable(View(), operationGeneration, requestBusy, mounted);
      Stop();
      var _ := TakeGeneration(FetchPreview(previewGeneration));
    }

    /** A download needs a folder, and leaves the preview playing. */
    method BeginDownload(hasRoot: bool)
      requires Valid()
      modifies this
      ensures Valid() && View() == Next(old(View()), StartDownload(hasRoot))
      ensures previewUrl == old(previewUrl) && revoked == old(revoked)
      ensures if old(requestBusy) || !old(enabled) || !hasRoot then View() == old(View())
              else requestBusy && flights == old(flights)[operationGeneration := Download]
    {
      hide Inv;
      StartKeepsInv(View(), StartDownload(hasRoot));
      if requestBusy || !enabled { return; }
      if !hasRoot { return; }
      var _ := TakeGeneration(Download);
    }

    /** An operation of an older generation leaves the busy flag to the newer one; the current one clears it. */
    method Finish(generation: nat)
      modifies this`requestBusy, this`flights
      ensures View() == Finished(old(View()), generation) && (old(Valid()) ==> Valid())
      ensures requestBusy == (old(requestBusy) && generation != operationGeneration) && generation !in flights
    {
      if Inv(View()) { FinishedKeepsInv(View(), generation); }
      flights := flights - {generation};
      if operationGeneration == generation { requestBusy := false; }
    }

    /** The URL made of the bytes is the one played if nothing overtook the fetch, and revoked at once otherwise. */
    method PreviewArrived(generation: nat, fetchedFor: nat)
      requires Valid() && generation in flights && flights[generation] == FetchPreview(fetchedFor)
      modifies this
      ensures Valid() && View() == Settled(old(View()), generation, true)
      ensures nextUrl == old(nextUrl) + 1
      ensures if old(IsCurrent(View(), generation)) && old(previewGeneration) == fetchedFor
              then previewUrl == Some(old(nextUrl)) && revoked[old(nextUrl)] == 0
              else previewUrl == old(previewUrl) && revoked[old(nextUrl)] == 1
      ensures generation != operationGeneration ==> requestBusy == old(requestBusy)
    {
      hide Finished, Inv;
      PreviewedKeepsUrls(View(), generation);
      NewUrlIsUnrevoked(View());
      var url := CreateObjectURL();
      if !mounted || !enabled || previewGeneration != fetchedFor || operationGeneration != generation {
        RevokeObjectURL(url);
      } else {
        previewUrl := Some(url);
      }
      Finish(generation);
    }

    /** The file is saved: a current download is still busy while its path is handed on, an overtaken one is over. */
    method DownloadArrived(generation: nat)
      requires Valid() && generation in flights && flights[generation].Download?
      modifies this`flights, this`requestBusy
      ensures Valid() && View() == Settled(old(View()), generation, true)
      ensures if IsCurrent(old(View()), generation) 
              then requestBusy && generation in flights && flights[generation].NotifyDownloaded?
              else generation !in flights && (generation != operationGeneration ==> requestBusy == old(requestBusy))
    {
      hide Finished, Inv;
      SettledKeepsInv(View(), generation, true);
      CurrentIsBusy(View(), generation);
      if !mounted || !enabled || operationGeneration != generation {
        Finish(generation);
      } else {
        flights := flights[generation := NotifyDownloaded];
      }
    }

    /** The results are those of this operation if it is current, and untouched otherwise; they never go back. */
    method SearchArrived(generation: nat)
      requires Valid() && generation in flights && (flights[generation].Search? || flights[generation].DeleteKey?)
      modifies this`resultsFrom, this`flights, this`requestBusy
      ensures Valid() && View() == Settled(old(View()), generation, true)
      ensures resultsFrom ==
              (if IsCurrent(old(View()), generation) then generation else old(resultsFrom)) >= old(resultsFrom)
    {
      hide Finished, Inv;
      SettledKeepsInv(View(), generation, true);
      CurrentIsBusy(View(), generation);
      if mounted && enabled && operationGeneration == generation { resultsFrom := generation; }
      Finish(generation);
    }
  }
}
