/** The bounded lease queue between the HTTP handlers and the renderer. Every method is one critical section. */
module UiCommandQueues {
  import opened Options

  datatype UiCommand =
    | ShowSamples(sampleIds: seq<int>, selectedId: Option<int>)
    | PreviewSample(sampleId: int)
    | CollectionsChanged

  datatype Lease = Lease(id: nat, command: UiCommand)

  datatype NackOutcome = Requeued | Discarded | Unknown

  datatype Queued = Queued(id: nat, command: UiCommand, retries: nat)

  datatype QueueError = QueueFull(size: nat, capacity: nat)

  const ID_LIMIT: nat := 0x1_0000_0000_0000_0000
  const MAX_RETRIES: nat := 3

  /** The state under the mutex. */
  datatype State = State(pending: seq<Queued>, inFlight: map<nat, Queued>, reserved: nat, nextId: nat)

  /** What happened so far: the committed commands in order, and what became of each id. */
  datatype Log = Log(committed: seq<UiCommand>, acked: set<nat>, discarded: set<nat>, nacks: map<nat, nat>,
                     claims: map<nat, nat>)

  datatype Config = Config(state: State, log: Log)

  const START := Config(State([], map[], 0, 0), Log([], {}, {}, map[], map[]))

  function Size(s: State): nat { |s.pending| + |s.inFlight| + s.reserved }

  // ---------- The critical sections ----------

  datatype Step = Reserve | Cancel | Commit(command: UiCommand) | Claim | Acknowledge(id: nat) | Nack(id: nat)

  function Drained(pending: seq<Queued>, inFlight: map<nat, Queued>): map<nat, Queued>
    decreases |pending|
  {
    if pending == [] then inFlight else Drained(pending[1..], inFlight[pending[0].id := pending[0]])
  }

  function Count(counts: map<nat, nat>, id: nat): nat { if id in counts then counts[id] else 0 }

  function Bumped(counts: map<nat, nat>, ids: set<nat>): map<nat, nat> {
    map id | id in counts.Keys + ids :: Count(counts, id) + (if id in ids then 1 else 0)
  }

  function Next(c: Config, capacity: nat, step: Step): Config {
    var s, l := c.state, c.log;
    match step
    case Reserve =>
      if Size(s) >= capacity then c else Config(s.(reserved := s.reserved + 1), l)
    case Cancel =>
      if s.reserved == 0 then c else Config(s.(reserved := s.reserved - 1), l)
    case Commit(command) =>
      if s.reserved == 0 then c
      else Config(State(s.pending + [Queued(s.nextId, command, 0)], s.inFlight, s.reserved - 1,
                        (s.nextId + 1) % ID_LIMIT),
                  l.(committed := l.committed + [command]))
    case Claim =>
      var all := Drained(s.pending, s.inFlight);
      Config(s.(pending := [], inFlight := all), l.(claims := Bumped(l.claims, all.Keys)))
    case Acknowledge(id) =>
      if id !in s.inFlight then c
      else Config(s.(inFlight := s.inFlight - {id}), l.(acked := l.acked + {id}))
    case Nack(id) =>
      if id !in s.inFlight then c
      else
        var e := s.inFlight[id];
        var nacks := l.nacks[id := Count(l.nacks, id) + 1];
        if e.retries >= MAX_RETRIES then
          Config(s.(inFlight := s.inFlight - {id}), l.(discarded := l.discarded + {id}, nacks := nacks))
        else
          Config(s.(inFlight := s.inFlight - {id}, pending := [e.(retries := e.retries + 1)] + s.pending),
                 l.(nacks := nacks))
  }

  // ---------- What every reachable state satisfies ----------

  predicate Has(pending: seq<Queued>, id: nat) { exists i :: 0 <= i < |pending| && pending[i].id == id }

  /** A live entry carries its committed command, its nack count, and was claimed before each nack. */
  ghost predicate EntryOk(e: Queued, l: Log, leased: nat) {
    && e.id < |l.committed| && e.command == l.committed[e.id]
    && e.retries == Count(l.nacks, e.id) <= MAX_RETRIES
    && Count(l.claims, e.id) >= e.retries + leased
  }

  /** Where one committed id is, each place excluding the others. */
  ghost predicate ExactlyOnePlace(c: Config, id: nat) {
    var p, f, a, d := Has(c.state.pending, id), id in c.state.inFlight, id in c.log.acked, id in c.log.discarded;
    (p || f || a || d) && !(p && f) && !(p && a) && !(p && d) && !(f && a) && !(f && d) && !(a && d)
  }

  ghost predicate EntriesOk(c: Config) {
    var s, l := c.state, c.log;
    && (forall i, j :: 0 <= i < j < |s.pending| ==> s.pending[i].id != s.pending[j].id)
    && (forall i :: 0 <= i < |s.pending| ==> EntryOk(s.pending[i], l, 0))
    && (forall id :: id in s.inFlight ==> s.inFlight[id].id == id && EntryOk(s.inFlight[id], l, 1))
  }

  /** Discarded ids were nacked four times and claimed at least as often; acknowledged ids were claimed. */
  ghost predicate FinishedOk(l: Log) {
    && (forall id :: id in l.acked || id in l.discarded || id in l.nacks || id in l.claims ==> id < |l.committed|)
    && (forall id :: id in l.discarded ==>
        Count(l.nacks, id) == MAX_RETRIES + 1 && Count(l.claims, id) >= MAX_RETRIES + 1)
    && (forall id :: id in l.acked ==> Count(l.nacks, id) <= MAX_RETRIES && Count(l.claims, id) >= 1)
  }

  ghost predicate PlacesOk(c: Config) {
    forall id: nat :: id < |c.log.committed| ==> ExactlyOnePlace(c, id)
  }

  ghost predicate Tracked(c: Config) {
    && c.state.nextId == |c.log.committed| % ID_LIMIT
    && EntriesOk(c) && FinishedOk(c.log) && PlacesOk(c)
  }

  ghost predicate Inv(c: Config, capacity: nat) {
    && Size(c.state) <= capacity
    && (|c.log.committed| <= ID_LIMIT ==> Tracked(c))
  }

  // ---------- Draining ----------

  lemma HasSplit(pending: seq<Queued>)
    requires pending != []
    ensures forall id :: Has(pending, id) <==> pending[0].id == id || Has(pending[1..], id)
  {}

  /** Draining moves every pending entry into flight under its own id, and loses none. */
  lemma {:induction false} DrainedHolds(pending: seq<Queued>, inFlight: map<nat, Queued>)
    requires forall i, j :: 0 <= i < j < |pending| ==> pending[i].id != pending[j].id
    requires forall i :: 0 <= i < |pending| ==> pending[i].id !in inFlight
    ensures var all := Drained(pending, inFlight);
            && |all| == |inFlight| + |pending|
            && (forall id :: id in all <==> id in inFlight || Has(pending, id))
            && (forall id :: id in inFlight ==> all[id] == inFlight[id])
            && (forall i :: 0 <= i < |pending| ==> pending[i].id in all && all[pending[i].id] == pending[i])
    decreases |pending|
  {
    if pending != [] {
      var e, rest := pending[0], pending[1..];
      var next := inFlight[e.id := e];
      DrainedHolds(rest, next);
      assert next.Keys == inFlight.Keys + {e.id};
      HasSplit(pending);
      forall i | 0 <= i < |pending| ensures Drained(pending, inFlight)[pending[i].id] == pending[i] {
        if i > 0 { assert pending[i] == rest[i - 1]; }
      }
    }
  }

  /** Whatever the ids, exactly those that were pending or in flight are in flight afterwards. */
  lemma {:induction false} DrainedKeys(pending: seq<Queued>, inFlight: map<nat, Queued>)
    ensures forall id :: id in Drained(pending, inFlight) <==> id in inFlight || Has(pending, id)
    decreases |pending|
  {
    if pending != [] {
      DrainedKeys(pending[1..], inFlight[pending[0].id := pending[0]]);
      HasSplit(pending);
    }
  }

  /** Whatever the ids, draining never grows the number of entries. */
  lemma {:induction false} DrainedSize(pending: seq<Queued>, inFlight: map<nat, Queued>)
    ensures |Drained(pending, inFlight)| <= |inFlight| + |pending|
    decreases |pending|
  {
    if pending != [] {
      var e := pending[0];
      var next := inFlight[e.id := e];
      assert next.Keys == inFlight.Keys + {e.id};
      assert |next| <= |inFlight| + 1 by {
        if e.id in inFlight { assert next.Keys == inFlight.Keys; }
        assert |next| == |next.Keys| && |inFlight| == |inFlight.Keys|;
      }
      DrainedSize(pending[1..], next);
    }
  }

  // ---------- Every step keeps the invariant ----------

  lemma RemoveSize(m: map<nat, Queued>, id: nat)
    requires id in m
    ensures |m - {id}| == |m| - 1
  {}

  lemma LeaseStepKeepsCapacity(c: Config, capacity: nat, step: Step, id: nat)
    requires Size(c.state) <= capacity && (step == Acknowledge(id) || step == Nack(id))
    ensures Size(Next(c, capacity, step).state) <= capacity
  {
    hide Drained, Bumped, Count;
    if id in c.state.inFlight { RemoveSize(c.state.inFlight, id); }
  }

  lemma StepKeepsCapacity(c: Config, capacity: nat, step: Step)
    requires Size(c.state) <= capacity
    ensures Size(Next(c, capacity, step).state) <= capacity
  {
    hide Drained, Bumped, Count;
    match step
    case Claim => DrainedSize(c.state.pending, c.state.inFlight);
    case Acknowledge(id) => LeaseStepKeepsCapacity(c, capacity, step, id);
    case Nack(id) => LeaseStepKeepsCapacity(c, capacity, step, id);
    case _ =>
  }

  lemma CommitKeepsTracked(c: Config, capacity: nat, command: UiCommand)
    requires Tracked(c) && |c.log.committed| < ID_LIMIT
    ensures Tracked(Next(c, capacity, Commit(command)))
  {
    var n := Next(c, capacity, Commit(command));
    var s, l := c.state, c.log;
    if s.reserved > 0 {
      var last := |s.pending|;
      assert s.nextId == |l.committed| && n.state.pending[last].id == |l.committed|;
      forall id: nat | id < |n.log.committed| ensures ExactlyOnePlace(n, id) {
        if id < |l.committed| {
          assert ExactlyOnePlace(c, id);
          if Has(s.pending, id) {
            var i :| 0 <= i < |s.pending| && s.pending[i].id == id;
            assert n.state.pending[i].id == id;
          }
          if Has(n.state.pending, id) {
            var i :| 0 <= i < |n.state.pending| && n.state.pending[i].id == id;
            assert s.pending[i].id == id;
          }
        } else {
          assert n.state.pending[last].id == id;
        }
      }
    }
  }

  lemma PendingNotInFlight(c: Config)
    requires EntriesOk(c) && PlacesOk(c)
    ensures forall i :: 0 <= i < |c.state.pending| ==> c.state.pending[i].id !in c.state.inFlight
  {
    var s := c.state;
    forall i | 0 <= i < |s.pending| ensures s.pending[i].id !in s.inFlight {
      assert EntryOk(s.pending[i], c.log, 0);
      assert Has(s.pending, s.pending[i].id);
      assert ExactlyOnePlace(c, s.pending[i].id);
    }
  }

  lemma EntryAfterClaim(e: Queued, l: Log, leased: nat, ids: set<nat>)
    requires EntryOk(e, l, leased) && e.id in ids
    ensures EntryOk(e, l.(claims := Bumped(l.claims, ids)), 1)
  {}

  lemma ClaimKeepsEntries(c: Config, capacity: nat)
    requires EntriesOk(c) && PlacesOk(c)
    ensures EntriesOk(Next(c, capacity, Claim))
  {
    var n := Next(c, capacity, Claim);
    var s, l, all := c.state, c.log, n.state.inFlight;
    PendingNotInFlight(c);
    DrainedHolds(s.pending, s.inFlight);
    hide Drained, EntryOk, Bumped;
    forall id | id in all ensures all[id].id == id && EntryOk(all[id], n.log, 1) {
      if id !in s.inFlight {
        var i :| 0 <= i < |s.pending| && s.pending[i].id == id;
        assert all[s.pending[i].id] == s.pending[i];
        EntryAfterClaim(s.pending[i], l, 0, all.Keys);
      } else {
        EntryAfterClaim(s.inFlight[id], l, 1, all.Keys);
      }
    }
  }

  lemma ClaimKeepsPlaces(c: Config, capacity: nat)
    requires EntriesOk(c) && PlacesOk(c)
    ensures PlacesOk(Next(c, capacity, Claim))
  {
    var n := Next(c, capacity, Claim);
    PendingNotInFlight(c);
    DrainedHolds(c.state.pending, c.state.inFlight);
    hide Drained, EntryOk, EntriesOk, Bumped;
    forall id: nat | id < |c.log.committed| ensures ExactlyOnePlace(n, id) {
      assert ExactlyOnePlace(c, id);
    }
  }

  lemma LiveIsCommitted(c: Config, id: nat)
    requires EntriesOk(c) && (id in c.state.inFlight || Has(c.state.pending, id))
    ensures id < |c.log.committed|
  {}

  lemma ClaimKeepsFinished(c: Config, capacity: nat)
    requires EntriesOk(c) && PlacesOk(c) && FinishedOk(c.log)
    ensures FinishedOk(Next(c, capacity, Claim).log)
  {
    hide Drained, EntryOk, Has;
    PendingNotInFlight(c);
    DrainedHolds(c.state.pending, c.state.inFlight);
    var n := Next(c, capacity, Claim);
    forall id | id in n.state.inFlight ensures id < |c.log.committed| {
      LiveIsCommitted(c, id);
    }
  }

  lemma AcknowledgeKeepsTracked(c: Config, capacity: nat, id: nat)
    requires Tracked(c)
    ensures Tracked(Next(c, capacity, Acknowledge(id)))
  {
    var n := Next(c, capacity, Acknowledge(id));
    if id in c.state.inFlight {
      assert EntryOk(c.state.inFlight[id], c.log, 1);
      forall k: nat | k < |c.log.committed| ensures ExactlyOnePlace(n, k) {
        assert ExactlyOnePlace(c, k);
      }
    }
  }

  lemma NackKeepsEntries(c: Config, capacity: nat, id: nat)
    requires EntriesOk(c) && PlacesOk(c) && id in c.state.inFlight
    ensures EntriesOk(Next(c, capacity, Nack(id)))
  {
    var n := Next(c, capacity, Nack(id));
    var s, e := c.state, c.state.inFlight[id];
    assert EntryOk(e, c.log, 1);
    PendingNotInFlight(c);
    forall i | 0 <= i < |s.pending| ensures s.pending[i].id != id && EntryOk(s.pending[i], n.log, 0) {
      assert EntryOk(s.pending[i], c.log, 0);
    }
    forall k | k in n.state.inFlight ensures EntryOk(n.state.inFlight[k], n.log, 1) {
      assert EntryOk(s.inFlight[k], c.log, 1);
    }
    if e.retries < MAX_RETRIES {
      assert EntryOk(n.state.pending[0], n.log, 0);
      forall i | 0 < i < |n.state.pending| ensures n.state.pending[i] == s.pending[i - 1] {}
    }
  }

  lemma NackKeepsPlaces(c: Config, capacity: nat, id: nat)
    requires EntriesOk(c) && PlacesOk(c) && FinishedOk(c.log) && id in c.state.inFlight
    ensures PlacesOk(Next(c, capacity, Nack(id))) && FinishedOk(Next(c, capacity, Nack(id)).log)
  {
    var n := Next(c, capacity, Nack(id));
    var e := c.state.inFlight[id];
    assert EntryOk(e, c.log, 1) && ExactlyOnePlace(c, id);
    hide EntryOk, EntriesOk;
    if e.retries < MAX_RETRIES {
      assert n.state.pending[1..] == c.state.pending;
      HasSplit(n.state.pending);
    }
    hide Has;
    forall k: nat | k < |c.log.committed| ensures ExactlyOnePlace(n, k) {
      assert ExactlyOnePlace(c, k);
    }
  }

  lemma ReservedDoesNotMatter(c: Config, reserved: nat)
    requires Tracked(c)
    ensures Tracked(c.(state := c.state.(reserved := reserved)))
  {
    var n := c.(state := c.state.(reserved := reserved));
    hide EntryOk;
    forall k: nat | k < |c.log.committed| ensures ExactlyOnePlace(n, k) {
      assert ExactlyOnePlace(c, k);
    }
  }

  lemma StepKeepsTracked(c: Config, capacity: nat, step: Step)
    requires Tracked(c) && |Next(c, capacity, step).log.committed| <= ID_LIMIT
    ensures Tracked(Next(c, capacity, step))
  {
    hide EntriesOk, FinishedOk, PlacesOk, Drained, Bumped;
    match step
    case Reserve => ReservedDoesNotMatter(c, c.state.reserved + 1);
    case Cancel => if c.state.reserved > 0 { ReservedDoesNotMatter(c, c.state.reserved - 1); }
    case Commit(command) => if c.state.reserved > 0 { CommitKeepsTracked(c, capacity, command); }
    case Claim => ClaimKeepsEntries(c, capacity); ClaimKeepsPlaces(c, capacity); ClaimKeepsFinished(c, capacity);
    case Acknowledge(id) => AcknowledgeKeepsTracked(c, capacity, id);
    case Nack(id) => if id in c.state.inFlight { NackKeepsEntries(c, capacity, id); NackKeepsPlaces(c, capacity, id); }
  }

  lemma CommittedGrows(c: Config, capacity: nat, step: Step)
    ensures |c.log.committed| <= |Next(c, capacity, step).log.committed|
    ensures c.log.committed <= Next(c, capacity, step).log.committed
  {}

  /** Capacity and the bookkeeping of every id survive every critical section. */
  lemma StepKeepsInv(c: Config, capacity: nat, step: Step)
    requires Inv(c, capacity)
    ensures Inv(Next(c, capacity, step), capacity)
  {
    StepKeepsCapacity(c, capacity, step);
    CommittedGrows(c, capacity, step);
    hide Next, Tracked;
    if |Next(c, capacity, step).log.committed| <= ID_LIMIT { StepKeepsTracked(c, capacity, step); }
  }

  // ---------- Runs ----------

  /** The configuration after any interleaving of critical sections. */
  function Run(c: Config, capacity: nat, steps: seq<Step>): Config {
    if steps == [] then c
    else Next(Run(c, capacity, steps[..|steps| - 1]), capacity, steps[|steps| - 1])
  }

  lemma {:induction false} RunKeepsInv(c: Config, capacity: nat, steps: seq<Step>)
    requires Inv(c, capacity)
    ensures Inv(Run(c, capacity, steps), capacity)
  {
    if steps != [] {
      RunKeepsInv(c, capacity, steps[..|steps| - 1]);
      StepKeepsInv(Run(c, capacity, steps[..|steps| - 1]), capacity, steps[|steps| - 1]);
    }
  }

  lemma NackBounds(c: Config, id: nat)
    requires Tracked(c) && id < |c.log.committed|
    ensures id !in c.log.discarded ==> Count(c.log.nacks, id) <= MAX_RETRIES
    ensures id in c.state.inFlight ==> EntryOk(c.state.inFlight[id], c.log, 1)
  {
    assert ExactlyOnePlace(c, id);
    if Has(c.state.pending, id) {
      var i :| 0 <= i < |c.state.pending| && c.state.pending[i].id == id;
      assert EntryOk(c.state.pending[i], c.log, 0);
    } else if id in c.state.inFlight {
      assert EntryOk(c.state.inFlight[id], c.log, 1);
    }
  }

  /**
   Every run from the empty queue stays within capacity, and while ids have not wrapped every committed id is in
   exactly one place: pending, in flight, acknowledged, or discarded by its fourth nack after four claims.
   */
  lemma EveryRunAccountsForEveryId(capacity: nat, steps: seq<Step>, id: nat)
    ensures var c := Run(START, capacity, steps);
            && Size(c.state) <= capacity
            && (id < |c.log.committed| <= ID_LIMIT ==>
                  && ExactlyOnePlace(c, id)
                  && (id in c.log.discarded <==> Count(c.log.nacks, id) == MAX_RETRIES + 1)
                  && (id in c.log.discarded ==> Count(c.log.claims, id) >= MAX_RETRIES + 1)
                  && (id in c.log.acked ==> Count(c.log.claims, id) >= 1)
                  && (id in c.state.inFlight ==> c.state.inFlight[id].command == c.log.committed[id]))
  {
    var c := Run(START, capacity, steps);
    assert Inv(START, capacity);
    RunKeepsInv(START, capacity, steps);
    hide Run, Next, START;
    if id < |c.log.committed| <= ID_LIMIT {
      assert ExactlyOnePlace(c, id);
      NackBounds(c, id);
    }
  }

  /** Every pending entry is in flight under its own id, and every entry in flight stays as it is. */
  ghost predicate AllMoved(pending: seq<Queued>, before: map<nat, Queued>, after: map<nat, Queued>) {
    && (forall i :: 0 <= i < |pending| ==> pending[i].id in after && after[pending[i].id] == pending[i])
    && (forall id :: id in before ==> id in after && after[id] == before[id])
  }

  /** A claim counts one more for every command it puts in flight, and nothing for any other. */
  lemma ClaimsAreCounted(c: Config, capacity: nat, id: nat)
    ensures var t := Next(c, capacity, Claim);
            Count(t.log.claims, id) ==
            Count(c.log.claims, id) + (if id in c.state.inFlight || Has(c.state.pending, id) then 1 else 0)
  {
    hide Drained, Has;
    DrainedKeys(c.state.pending, c.state.inFlight);
  }

  /** What a claim moves in flight: everything that was pending, beside what was in flight before. */
  lemma ClaimMovesEverything(c: Config, capacity: nat)
    requires Inv(c, capacity)
    ensures var s, t := c.state, Next(c, capacity, Claim).state;
            && t == s.(pending := [], inFlight := t.inFlight)
            && (forall id :: id in t.inFlight <==> id in s.inFlight || Has(s.pending, id))
            && (|c.log.committed| <= ID_LIMIT ==> AllMoved(s.pending, s.inFlight, t.inFlight))
  {
    hide Drained, EntryOk, Bumped, Has;
    DrainedKeys(c.state.pending, c.state.inFlight);
    if |c.log.committed| <= ID_LIMIT {
      PendingNotInFlight(c);
      DrainedHolds(c.state.pending, c.state.inFlight);
    }
  }

  lemma ClaimCommitsNothing(c: Config, capacity: nat)
    ensures Next(c, capacity, Claim).log == c.log.(claims := Next(c, capacity, Claim).log.claims)
  {
    hide Drained, Bumped;
  }

  /** In every run a claim puts every committed command in flight that is neither acknowledged nor discarded yet. */
  lemma ClaimDeliversEverything(capacity: nat, steps: seq<Step>, id: nat)
    ensures var c := Run(START, capacity, steps);
            var t := Next(c, capacity, Claim);
            id < |c.log.committed| <= ID_LIMIT && id !in c.log.acked && id !in c.log.discarded ==>
              id in t.state.inFlight && t.state.inFlight[id].command == c.log.committed[id]
  {
    var c := Run(START, capacity, steps);
    assert Inv(START, capacity);
    RunKeepsInv(START, capacity, steps);
    StepKeepsInv(c, capacity, Claim);
    ClaimMovesEverything(c, capacity);
    CommittedGrows(c, capacity, Claim);
    ClaimCommitsNothing(c, capacity);
    if id < |c.log.committed| <= ID_LIMIT && id !in c.log.acked && id !in c.log.discarded {
      assert ExactlyOnePlace(c, id);
      NackBounds(Next(c, capacity, Claim), id);
    }
  }

  // ---------- Retries run out ----------

  /** How many more acknowledgements or nacks one id can absorb. */
  function Weight(l: Log, id: nat): int {
    if id in l.acked || id in l.discarded then 0 else MAX_RETRIES + 1 - Count(l.nacks, id)
  }

  function Potential(l: Log, n: nat): int {
    if n == 0 then 0 else Potential(l, n - 1) + Weight(l, n - 1)
  }

  lemma {:induction false} PotentialSame(before: Log, after: Log, n: nat)
    requires forall k: nat :: k < n ==> Weight(after, k) == Weight(before, k)
    ensures Potential(after, n) == Potential(before, n)
  {
    if n > 0 { PotentialSame(before, after, n - 1); }
  }

  lemma {:induction false} PotentialSpent(before: Log, after: Log, n: nat, id: nat)
    requires id < n && forall k: nat :: k < n && k != id ==> Weight(after, k) == Weight(before, k)
    ensures Potential(after, n) == Potential(before, n) - Weight(before, id) + Weight(after, id)
  {
    if id == n - 1 {
      PotentialSame(before, after, n - 1);
    } else {
      PotentialSpent(before, after, n - 1, id);
    }
  }

  /** Whether a step acknowledges or nacks a lease that is in flight. */
  function Effective(c: Config, step: Step): nat {
    match step
    case Acknowledge(id) => if id in c.state.inFlight then 1 else 0
    case Nack(id) => if id in c.state.inFlight then 1 else 0
    case _ => 0
  }

  /** An effective step spends at least one unit of the weight of its own id and leaves the others alone. */
  lemma StepSpendsWeight(c: Config, capacity: nat, step: Step, id: nat)
    requires step == Acknowledge(id) || step == Nack(id)
    requires id in c.state.inFlight && id !in c.log.acked && id !in c.log.discarded
    requires c.state.inFlight[id].retries == Count(c.log.nacks, id) <= MAX_RETRIES
    ensures var after := Next(c, capacity, step).log;
            && after.committed == c.log.committed
            && Weight(after, id) + 1 <= Weight(c.log, id)
            && forall k: nat :: k != id ==> Weight(after, k) == Weight(c.log, k)
  {}

  lemma IdleStep(c: Config, capacity: nat, step: Step)
    requires !step.Commit? && Effective(c, step) == 0
    ensures var after := Next(c, capacity, step).log;
            after.committed == c.log.committed && forall k: nat :: Weight(after, k) == Weight(c.log, k)
  {
    hide Drained, Bumped;
  }

  lemma LeasedFacts(c: Config, id: nat)
    requires Tracked(c) && id in c.state.inFlight
    ensures id < |c.log.committed| && id !in c.log.acked && id !in c.log.discarded
    ensures c.state.inFlight[id].retries == Count(c.log.nacks, id) <= MAX_RETRIES
  {
    assert EntryOk(c.state.inFlight[id], c.log, 1);
    assert ExactlyOnePlace(c, id);
  }

  lemma StepSpendsPotential(c: Config, capacity: nat, step: Step)
    requires Tracked(c) && !step.Commit?
    ensures var n := |c.log.committed|;
            var next := Next(c, capacity, step).log;
            |next.committed| == n && Potential(next, n) + Effective(c, step) <= Potential(c.log, n)
  {
    hide Next, Tracked, EntriesOk, PlacesOk, FinishedOk, Weight;
    var n, after := |c.log.committed|, Next(c, capacity, step).log;
    if Effective(c, step) == 1 {
      LeasedFacts(c, step.id);
      StepSpendsWeight(c, capacity, step, step.id);
      PotentialSpent(c.log, after, n, step.id);
    } else {
      IdleStep(c, capacity, step);
      PotentialSame(c.log, after, n);
    }
  }

  function EffectiveSteps(c: Config, capacity: nat, steps: seq<Step>): nat {
    if steps == [] then 0
    else
      var before := steps[..|steps| - 1];
      EffectiveSteps(c, capacity, before) + Effective(Run(c, capacity, before), steps[|steps| - 1])
  }

  lemma {:induction false} PotentialNonNegative(c: Config, n: nat)
    requires Tracked(c) && n <= |c.log.committed|
    ensures 0 <= Potential(c.log, n)
  {
    if n > 0 {
      PotentialNonNegative(c, n - 1);
      NackBounds(c, n - 1);
    }
  }

  lemma PotentialLeft(c: Config, capacity: nat)
    requires Inv(c, capacity)
    ensures |c.log.committed| <= ID_LIMIT ==> 0 <= Potential(c.log, |c.log.committed|)
  {
    hide Tracked;
    if |c.log.committed| <= ID_LIMIT { PotentialNonNegative(c, |c.log.committed|); }
  }

  /** With nothing new committed, effective acknowledgements and nacks are bounded by the retries left. */
  lemma {:induction false} RetriesRunOut(c: Config, capacity: nat, steps: seq<Step>)
    requires Inv(c, capacity) && |c.log.committed| <= ID_LIMIT
    requires forall i :: 0 <= i < |steps| ==> !steps[i].Commit?
    ensures var n, after := |c.log.committed|, Run(c, capacity, steps).log;
            && |after.committed| == n
            && EffectiveSteps(c, capacity, steps) <= Potential(c.log, n) - Potential(after, n) <= Potential(c.log, n)
  {
    var n := |c.log.committed|;
    RunKeepsInv(c, capacity, steps);
    if steps != [] {
      var before := steps[..|steps| - 1];
      RetriesRunOut(c, capacity, before);
      RunKeepsInv(c, capacity, before);
      StepSpendsPotential(Run(c, capacity, before), capacity, steps[|steps| - 1]);
    }
    hide Inv, Tracked, Next, Potential;
    PotentialLeft(Run(c, capacity, steps), capacity);
  }

  // ---------- The queue object ----------

  /** The leases of everything in flight, in the order of their ids. */
  ghost predicate LeasesOf(leases: seq<Lease>, inFlight: map<nat, Queued>) {
    && (forall i, j :: 0 <= i < j < |leases| ==> leases[i].id < leases[j].id)
    && (forall i :: 0 <= i < |leases| ==>
        leases[i].id in inFlight && leases[i].command == inFlight[leases[i].id].command)
    && |leases| == |inFlight|
  }

  ghost predicate IsLeast(id: nat, ids: set<nat>) {
    id in ids && forall k :: k in ids ==> id <= k
  }

  /** A nonempty set of ids has a least one. */
  lemma {:induction false} LeastId(ids: set<nat>) returns (id: nat)
    requires ids != {}
    ensures IsLeast(id, ids)
    decreases |ids|
  {
    id :| id in ids;
    var rest := ids - {id};
    assert ids == rest + {id};
    if rest != {} {
      var m := LeastId(rest);
      if m < id { id := m; }
    }
  }

  /** The leases taken so far precede everything left. */
  ghost predicate LeasedBefore(leases: seq<Lease>, left: set<nat>, inFlight: map<nat, Queued>) {
    && (forall i, j :: 0 <= i < j < |leases| ==> leases[i].id < leases[j].id)
    && (forall i, k :: 0 <= i < |leases| && k in left ==> leases[i].id < k)
    && (forall i :: 0 <= i < |leases| ==>
        leases[i].id in inFlight && leases[i].command == inFlight[leases[i].id].command)
  }

  lemma LeaseNext(leases: seq<Lease>, left: set<nat>, inFlight: map<nat, Queued>, id: nat)
    requires LeasedBefore(leases, left, inFlight) && IsLeast(id, left) && id in inFlight
    ensures LeasedBefore(leases + [Lease(id, inFlight[id].command)], left - {id}, inFlight)
  {}

  /** The values of the in-flight tree, in key order. */
  method LeasesInOrder(inFlight: map<nat, Queued>) returns (leases: seq<Lease>)
    ensures LeasesOf(leases, inFlight)
    ensures forall id :: id in inFlight ==> Lease(id, inFlight[id].command) in leases
  {
    leases := [];
    var left := inFlight.Keys;
    while left != {}
      invariant left <= inFlight.Keys && |leases| + |left| == |inFlight|
      invariant LeasedBefore(leases, left, inFlight)
      invariant forall id :: id in inFlight && id !in left ==> Lease(id, inFlight[id].command) in leases
      decreases |left|
    {
      hide LeasedBefore;
      ghost var least := LeastId(left);
      var id :| id in left && forall k :: k in left ==> id <= k;
      LeaseNext(leases, left, inFlight, id);
      leases := leases + [Lease(id, inFlight[id].command)];
      left := left - {id};
    }
  }

  /** Other threads release only slots they reserved themselves, so one that is held stays held throughout. */
  ghost predicate KeepsSlot(c: Config, capacity: nat, others: seq<Step>) {
    forall k :: 0 <= k <= |others| ==> Run(c, capacity, others[..k]).state.reserved > 0
  }

  lemma SlotIsKept(c: Config, capacity: nat, others: seq<Step>)
    requires KeepsSlot(c, capacity, others)
    ensures Run(c, capacity, others).state.reserved > 0
    ensures Run(c, capacity, []) == c
  {
    assert others[..|others|] == others;
  }

  lemma NoSlotNoStep(c: Config, capacity: nat, step: Step)
    requires c.state.reserved == 0 && (step.Cancel? || step.Commit?)
    ensures Next(c, capacity, step) == c
  {}

  class UiCommandQueue {
    const capacity: nat
    var pending: seq<Queued>
    var inFlight: map<nat, Queued>
    var reserved: nat
    var nextId: nat
    ghost var log: Log

    ghost function Current(): Config
      reads this
    {
      Config(State(pending, inFlight, reserved, nextId), log)
    }

    ghost predicate Valid()
      reads this
    {
      Inv(Current(), capacity)
    }

    constructor (capacity: nat)
      ensures Valid() && this.capacity == capacity && Current() == START
    {
      this.capacity := capacity;
      pending, inFlight, reserved, nextId := [], map[], 0, 0;
      log := Log([], {}, {}, map[], map[]);
    }

    method ReserveSlot() returns (error: Option<QueueError>)
      requires Valid()
      modifies this
      ensures Valid() && Current() == Next(old(Current()), capacity, Reserve)
      ensures error == if old(Size(Current().state)) >= capacity
                       then Some(QueueFull(old(Size(Current().state)), capacity)) else None
      ensures error.None? ==> reserved == old(reserved) + 1
      ensures error.Some? ==> Current() == old(Current())
    {
      hide Inv;
      StepKeepsInv(Current(), capacity, Reserve);
      var size := |pending| + |inFlight| + reserved;
      if size >= capacity { return Some(QueueFull(size, capacity)); }
      reserved := reserved + 1;
      return None;
    }

    method CancelReservation()
      requires Valid() && reserved > 0
      modifies this
      ensures Valid() && Current() == Next(old(Current()), capacity, Cancel)
      ensures Current() == old(Current()).(state := old(Current().state).(reserved := old(reserved) - 1))
    {
      hide Inv;
      StepKeepsInv(Current(), capacity, Cancel);
      reserved := reserved - 1;
    }

    method CommitReservation(command: UiCommand)
      requires Valid() && reserved > 0
      modifies this
      ensures Valid() && Current() == Next(old(Current()), capacity, Commit(command))
      ensures reserved == old(reserved) - 1 && log.committed == old(log).committed + [command]
      ensures pending == old(pending) + [Queued(old(nextId), command, 0)] && inFlight == old(inFlight)
      ensures nextId == (old(nextId) + 1) % 0x1_0000_0000_0000_0000
    {
      hide Inv;
      StepKeepsInv(Current(), capacity, Commit(command));
      reserved := reserved - 1;
      var id := nextId;
      nextId := (nextId + 1) % ID_LIMIT;
      pending := pending + [Queued(id, command, 0)];
      log := log.(committed := log.committed + [command]);
    }

    method Enqueue(command: UiCommand) returns (error: Option<QueueError>)
      requires Valid()
      modifies this
      ensures Valid()
      ensures error.Some? <==> old(Size(Current().state)) >= capacity
      ensures error.Some? ==> Current() == old(Current())
      ensures error.None? ==>
                Current() == Next(Next(old(Current()), capacity, Reserve), capacity, Commit(command))
    {
      hide Inv;
      error := ReserveSlot();
      if error.None? { CommitReservation(command); }
    }

    /** One critical section of some other thread. */
    method Perform(step: Step)
      requires Valid()
      modifies this
      ensures Valid() && Current() == Next(old(Current()), capacity, step)
    {
      hide Inv, Next;
      if reserved == 0 && (step.Cancel? || step.Commit?) { NoSlotNoStep(Current(), capacity, step); }
      match step
      case Reserve => var _ := ReserveSlot();
      case Cancel => if reserved > 0 { CancelReservation(); }
      case Commit(command) => if reserved > 0 { CommitReservation(command); }
      case Claim => var _ := ClaimAll();
      case Acknowledge(id) => var _ := AcknowledgeLease(id);
      case Nack(id) => var _ := NackLease(id);
    }

    /** What other threads do while the lock is free. */
    method LetOthersRun(others: seq<Step>)
      requires Valid()
      modifies this
      ensures Valid() && Current() == Run(old(Current()), capacity, others)
    {
      hide Inv, Next;
      for i := 0 to |others|
        invariant Valid() && Current() == Run(old(Current()), capacity, others[..i])
      {
        assert others[..i + 1][..i] == others[..i] && others[..i + 1][i] == others[i];
        Perform(others[i]);
      }
      assert others[..|others|] == others;
    }

    /**
     Runs an operation between reserving and committing, while other threads take their steps on the queue. A full
     queue means the operation never ran; a failed operation gives back its own slot and nothing else; a successful one
     is followed by its command, behind whatever the others committed meanwhile.
     */
    method EnqueueAfter(command: UiCommand, succeeds: bool, others: seq<Step>)
      returns (ran: bool, error: Option<QueueError>)
      requires Valid()
      requires Size(Current().state) < capacity ==> KeepsSlot(Next(Current(), capacity, Reserve), capacity, others)
      modifies this
      ensures Valid()
      ensures ran <==> error.None?
      ensures error.Some? <==> old(Size(Current().state)) >= capacity
      ensures !ran ==> Current() == old(Current())
      ensures ran ==>
                var mid := Run(Next(old(Current()), capacity, Reserve), capacity, others);
                && Current() == Next(mid, capacity, if succeeds then Commit(command) else Cancel)
                && log.committed == mid.log.committed + (if succeeds then [command] else [])
                && pending == mid.state.pending + (if succeeds then [Queued(mid.state.nextId, command, 0)] else [])
                && inFlight == mid.state.inFlight && reserved == mid.state.reserved - 1
      ensures !succeeds && others == [] ==> Current() == old(Current())
    {
      hide Inv, Run;
      error := ReserveSlot();
      ran := error.None?;
      if ran {
        SlotIsKept(Current(), capacity, others);
        LetOthersRun(others);
        if succeeds { CommitReservation(command); } else { CancelReservation(); }
      }
    }

    /** Everything pending moves in flight, and every lease in flight is presented in the order of commitment. */
    method ClaimAll() returns (leases: seq<Lease>)
      requires Valid()
      modifies this
      ensures Valid() && Current() == Next(old(Current()), capacity, Claim)
      ensures pending == [] && reserved == old(reserved) && nextId == old(nextId)
      ensures forall id :: id in inFlight <==> id in old(inFlight) || Has(old(pending), id)
      ensures |log.committed| <= ID_LIMIT ==> AllMoved(old(pending), old(inFlight), inFlight)
      ensures LeasesOf(leases, inFlight)
      ensures forall id :: id in inFlight ==> Lease(id, inFlight[id].command) in leases
    {
      hide Inv, Has, AllMoved;
      StepKeepsInv(Current(), capacity, Claim);
      ClaimMovesEverything(Current(), capacity);
      while pending != []
        invariant Drained(pending, inFlight) == Drained(old(pending), old(inFlight))
        invariant reserved == old(reserved) && nextId == old(nextId) && log == old(log)
        decreases |pending|
      {
        var entry := pending[0];
        pending := pending[1..];
        inFlight := inFlight[entry.id := entry];
      }
      log := log.(claims := Bumped(log.claims, inFlight.Keys));
      leases := LeasesInOrder(inFlight);
    }

    method AcknowledgeLease(id: nat) returns (removed: bool)
      requires Valid()
      modifies this
      ensures Valid() && Current() == Next(old(Current()), capacity, Acknowledge(id))
      ensures removed <==> id in old(inFlight)
      ensures inFlight == old(inFlight) - {id} && pending == old(pending) && reserved == old(reserved)
    {
      hide Inv;
      StepKeepsInv(Current(), capacity, Acknowledge(id));
      removed := id in inFlight;
      if removed {
        inFlight := inFlight - {id};
        log := log.(acked := log.acked + {id});
      }
    }

    method NackLease(id: nat) returns (outcome: NackOutcome)
      requires Valid()
      modifies this
      ensures Valid() && Current() == Next(old(Current()), capacity, Nack(id))
      ensures outcome == if id !in old(inFlight) then Unknown
                         else if old(inFlight)[id].retries >= MAX_RETRIES then Discarded else Requeued
      ensures inFlight == old(inFlight) - {id} && reserved == old(reserved)
      ensures outcome.Requeued? ==>
                var e := old(inFlight)[id];
                pending == [e.(retries := e.retries + 1)] + old(pending)
      ensures !outcome.Requeued? ==> pending == old(pending)
    {
      hide Inv;
      StepKeepsInv(Current(), capacity, Nack(id));
      if id !in inFlight { return Unknown; }
      var entry := inFlight[id];
      inFlight := inFlight - {id};
      log := log.(nacks := log.nacks[id := Count(log.nacks, id) + 1]);
      if entry.retries >= MAX_RETRIES {
        log := log.(discarded := log.discarded + {id});
        return Discarded;
      }
      entry := entry.(retries := entry.retries + 1);
      pending := [entry] + pending;
      return Requeued;
    }
  }
}
