/**
 The HTTP action handlers as concurrent threads over two mutexes: the sample manager and the command queue.
 One step acquires a mutex, or runs a critical section and releases it.
 */
module ActionHandlers {
  import opened Options
  import opened UiCommandQueues

  datatype Outcome = Accepted | QueueRejected | NotFound | OperationFailed | Unavailable | Crashed

  datatype Pc =
    | WantValidate | Validating
    | WantReserve | Reserving
    | WantWrite | Writing
    | WantCommit | Committing
    | WantCancel(reason: Outcome) | Cancelling(reason: Outcome)
    | Done(outcome: Outcome)

  /** A handler; `writes` distinguishes add-to-collection from show and preview. */
  datatype Handler = Handler(writes: bool, command: UiCommand, pc: Pc, wrote: bool, ticket: Option<nat>)

  datatype System = System(handlers: seq<Handler>, manager: Option<nat>, queueLock: Option<nat>, poisoned: bool,
                           queue: Config)

  /** How the body of a critical section over the manager ends. */
  datatype Choice = Fine | Missing | Failed | Panics

  function Fresh(writes: bool, command: UiCommand): Handler { Handler(writes, command, WantValidate, false, None) }

  predicate NeedsManager(pc: Pc) { pc.WantValidate? || pc.WantWrite? }

  predicate NeedsQueue(pc: Pc) { pc.WantReserve? || pc.WantCommit? || pc.WantCancel? }

  predicate InManager(pc: Pc) { pc.Validating? || pc.Writing? }

  predicate InQueue(pc: Pc) { pc.Reserving? || pc.Committing? || pc.Cancelling? }

  /** Holding a reservation: between a granted reserve and the commit or the drop. */
  predicate Holding(pc: Pc) {
    pc.WantWrite? || pc.Writing? || pc.WantCommit? || pc.Committing? || pc.WantCancel? || pc.Cancelling?
  }

  predicate Enabled(s: System, i: nat) {
    && i < |s.handlers|
    && var pc := s.handlers[i].pc;
       InManager(pc) || InQueue(pc) || (NeedsManager(pc) && s.manager.None?) || (NeedsQueue(pc) && s.queueLock.None?)
  }

  function Acquired(h: Handler): Handler {
    match h.pc
    case WantValidate => h.(pc := Validating)
    case WantReserve => h.(pc := Reserving)
    case WantWrite => h.(pc := Writing)
    case WantCommit => h.(pc := Committing)
    case WantCancel(reason) => h.(pc := Cancelling(reason))
    case _ => h
  }

  /** The critical section over the manager: a poisoned lock, a panic, a failure, or success. */
  function ManagerBody(h: Handler, poisoned: bool, choice: Choice): Handler {
    if h.pc.Validating? then
      if poisoned then h.(pc := Done(Unavailable))
      else match choice
        case Fine => h.(pc := WantReserve)
        case Missing => h.(pc := Done(NotFound))
        case Failed => h.(pc := Done(OperationFailed))
        case Panics => h.(pc := Done(Crashed))
    else
      if poisoned then h.(pc := WantCancel(Unavailable))
      else match choice
        case Fine => h.(pc := WantCommit, wrote := true)
        case Panics => h.(pc := WantCancel(Crashed))
        case _ => h.(pc := WantCancel(OperationFailed))
  }

  /** The critical section over the queue and what the handler does next. */
  function QueueBody(h: Handler, queue: Config, capacity: nat): (Handler, Config) {
    match h.pc
    case Reserving =>
      if Size(queue.state) >= capacity then (h.(pc := Done(QueueRejected)), queue)
      else (h.(pc := if h.writes then WantWrite else WantCommit), Next(queue, capacity, Reserve))
    case Committing =>
      (h.(pc := Done(Accepted), ticket := Some(|queue.log.committed|)), Next(queue, capacity, Commit(h.command)))
    case Cancelling(reason) => (h.(pc := Done(reason)), Next(queue, capacity, Cancel))
    case _ => (h, queue)
  }

  function Advance(s: System, capacity: nat, i: nat, choice: Choice): System
    requires Enabled(s, i)
  {
    var h := s.handlers[i];
    if InManager(h.pc) then
      System(s.handlers[i := ManagerBody(h, s.poisoned, choice)], None, s.queueLock, s.poisoned || choice.Panics?,
             s.queue)
    else if InQueue(h.pc) then
      var (next, queue) := QueueBody(h, s.queue, capacity);
      System(s.handlers[i := next], s.manager, None, s.poisoned, queue)
    else if NeedsManager(h.pc) then
      s.(handlers := s.handlers[i := Acquired(h)], manager := Some(i))
    else
      s.(handlers := s.handlers[i := Acquired(h)], queueLock := Some(i))
  }

  /** A step of the system: a handler advances, or the renderer claims, acknowledges or nacks with the queue free. */
  datatype SystemStep = Handle(i: nat, choice: Choice) | Render(step: Step)

  predicate Possible(s: System, step: SystemStep) {
    match step
    case Handle(i, _) => Enabled(s, i)
    case Render(q) => s.queueLock.None? && (q.Claim? || q.Acknowledge? || q.Nack?)
  }

  function Take(s: System, capacity: nat, step: SystemStep): System
    requires Possible(s, step)
  {
    match step
    case Handle(i, choice) => Advance(s, capacity, i, choice)
    case Render(q) => s.(queue := Next(s.queue, capacity, q))
  }

  // ---------- What every interleaving keeps ----------

  function Holders(handlers: seq<Handler>): nat {
    if handlers == [] then 0
    else Holders(handlers[..|handlers| - 1]) + (if Holding(handlers[|handlers| - 1].pc) then 1 else 0)
  }

  lemma {:induction false} HoldersUpdate(handlers: seq<Handler>, i: nat, h: Handler)
    requires i < |handlers|
    ensures Holders(handlers[i := h]) ==
            Holders(handlers) - (if Holding(handlers[i].pc) then 1 else 0) + (if Holding(h.pc) then 1 else 0)
    ensures Holding(handlers[i].pc) ==> Holders(handlers) >= 1
  {
    var last := |handlers| - 1;
    if i == last {
      assert handlers[i := h][..last] == handlers[..last];
    } else {
      HoldersUpdate(handlers[..last], i, h);
      assert handlers[i := h][..last] == handlers[..last][i := h];
    }
  }

  /** A lock is owned exactly by the handler inside its critical section. */
  ghost predicate LocksOk(handlers: seq<Handler>, manager: Option<nat>, queueLock: Option<nat>) {
    && (forall i :: 0 <= i < |handlers| ==> (InManager(handlers[i].pc) <==> manager == Some(i)))
    && (forall i :: 0 <= i < |handlers| ==> (InQueue(handlers[i].pc) <==> queueLock == Some(i)))
    && (manager.Some? ==> manager.value < |handlers|)
    && (queueLock.Some? ==> queueLock.value < |handlers|)
  }

  /** Moving one handler into or out of a critical section together with the lock keeps ownership exact. */
  lemma LockUpdate(handlers: seq<Handler>, manager: Option<nat>, queueLock: Option<nat>, i: nat, h: Handler,
                   manager': Option<nat>, queueLock': Option<nat>)
    requires LocksOk(handlers, manager, queueLock) && i < |handlers|
    requires InManager(h.pc) <==> manager' == Some(i)
    requires InQueue(h.pc) <==> queueLock' == Some(i)
    requires manager' == manager || (manager.None? && manager' == Some(i)) || (manager == Some(i) && manager'.None?)
    requires queueLock' == queueLock || (queueLock.None? && queueLock' == Some(i)) ||
             (queueLock == Some(i) && queueLock'.None?)
    ensures LocksOk(handlers[i := h], manager', queueLock')
  {}

  /** A write has run exactly when its commit is next or done; an accepted handler holds the place of its command. */
  ghost predicate HandlerOk(h: Handler, queue: Config) {
    && (h.wrote <==> h.writes && (h.pc.WantCommit? || h.pc.Committing? || h.pc == Done(Accepted)))
    && (h.pc.WantWrite? || h.pc.Writing? || h.pc.WantCancel? || h.pc.Cancelling? ==> h.writes)
    && (h.pc.WantCancel? || h.pc.Cancelling? ==> h.pc.reason != Accepted && h.pc.reason != QueueRejected)
    && (h.ticket.Some? <==> h.pc == Done(Accepted))
    && (h.ticket.Some? ==> h.ticket.value < |queue.log.committed| && queue.log.committed[h.ticket.value] == h.command)
  }

  ghost predicate HandlersOk(handlers: seq<Handler>, queue: Config) {
    && (forall i :: 0 <= i < |handlers| ==> HandlerOk(handlers[i], queue))
    && (forall i, j :: 0 <= i < j < |handlers| && handlers[i].ticket.Some? ==> handlers[i].ticket != handlers[j].ticket)
  }

  lemma TicketsBounded(handlers: seq<Handler>, queue: Config, i: nat)
    requires HandlersOk(handlers, queue) && i < |handlers| && handlers[i].ticket.Some?
    ensures handlers[i].ticket.value < |queue.log.committed|
  {}

  /** One handler changes while the committed commands only grow; a new ticket is past every old one. */
  lemma HandlerUpdate(handlers: seq<Handler>, queue: Config, queue': Config, i: nat, h: Handler)
    requires HandlersOk(handlers, queue) && i < |handlers| && HandlerOk(h, queue')
    requires queue.log.committed <= queue'.log.committed
    requires h.ticket == handlers[i].ticket || h.ticket == Some(|queue.log.committed|)
    ensures HandlersOk(handlers[i := h], queue')
  {
    var now := handlers[i := h];
    forall k | 0 <= k < |now| ensures HandlerOk(now[k], queue') {
      assert HandlerOk(handlers[k], queue);
    }
    hide HandlerOk;
    forall a, b | 0 <= a < b < |now| && now[a].ticket.Some? ensures now[a].ticket != now[b].ticket {
      if handlers[a].ticket.Some? { TicketsBounded(handlers, queue, a); }
      if handlers[b].ticket.Some? { TicketsBounded(handlers, queue, b); }
    }
  }

  ghost predicate SystemInv(s: System, capacity: nat) {
    && LocksOk(s.handlers, s.manager, s.queueLock)
    && Inv(s.queue, capacity)
    && s.queue.state.reserved == Holders(s.handlers)
    && HandlersOk(s.handlers, s.queue)
  }

  ghost predicate Starting(s: System, capacity: nat) {
    && Inv(s.queue, capacity) && s.queue.state.reserved == 0
    && s.manager.None? && s.queueLock.None? && !s.poisoned
    && forall i :: 0 <= i < |s.handlers| ==> s.handlers[i] == Fresh(s.handlers[i].writes, s.handlers[i].command)
  }

  lemma {:induction false} NoHolders(handlers: seq<Handler>)
    requires forall i :: 0 <= i < |handlers| ==> !Holding(handlers[i].pc)
    ensures Holders(handlers) == 0
  {
    if handlers != [] { NoHolders(handlers[..|handlers| - 1]); }
  }

  lemma StartingInv(s: System, capacity: nat)
    requires Starting(s, capacity)
    ensures SystemInv(s, capacity)
  {
    hide Inv;
    NoHolders(s.handlers);
  }

  lemma RenderKeepsInv(s: System, capacity: nat, q: Step)
    requires SystemInv(s, capacity) && Possible(s, Render(q))
    ensures SystemInv(Take(s, capacity, Render(q)), capacity)
  {
    hide Inv, LocksOk, Holding, Drained;
    StepKeepsInv(s.queue, capacity, q);
    CommittedGrows(s.queue, capacity, q);
    forall k | 0 <= k < |s.handlers| ensures HandlerOk(s.handlers[k], Next(s.queue, capacity, q)) {
      assert HandlerOk(s.handlers[k], s.queue);
    }
  }

  function Rank(pc: Pc): nat {
    match pc
    case WantValidate => 8
    case Validating => 7
    case WantReserve => 6
    case Reserving => 5
    case WantWrite => 4
    case Writing => 3
    case WantCommit => 2
    case Committing => 1
    case WantCancel(_) => 2
    case Cancelling(_) => 1
    case Done(_) => 0
  }

  lemma ManagerBodyOk(h: Handler, queue: Config, poisoned: bool, choice: Choice)
    requires HandlerOk(h, queue) && InManager(h.pc)
    ensures var next := ManagerBody(h, poisoned, choice);
            && HandlerOk(next, queue) && next.ticket == h.ticket
            && !InManager(next.pc) && !InQueue(next.pc) && (Holding(next.pc) <==> Holding(h.pc))
            && Rank(next.pc) < Rank(h.pc)
  {}

  lemma AcquiredOk(h: Handler, queue: Config)
    requires HandlerOk(h, queue) && (NeedsManager(h.pc) || NeedsQueue(h.pc))
    ensures var next := Acquired(h);
            && HandlerOk(next, queue) && next.ticket == h.ticket
            && (InManager(next.pc) <==> NeedsManager(h.pc)) && (InQueue(next.pc) <==> NeedsQueue(h.pc))
            && (Holding(next.pc) <==> Holding(h.pc))
            && Rank(next.pc) < Rank(h.pc)
  {}

  lemma QueueBodyOk(h: Handler, queue: Config, capacity: nat)
    requires HandlerOk(h, queue) && InQueue(h.pc) && Inv(queue, capacity)
    requires Holding(h.pc) ==> queue.state.reserved >= 1
    ensures var (next, queue') := QueueBody(h, queue, capacity);
            && HandlerOk(next, queue') && Inv(queue', capacity) && queue.log.committed <= queue'.log.committed
            && (next.ticket == h.ticket || next.ticket == Some(|queue.log.committed|))
            && !InManager(next.pc) && !InQueue(next.pc)
            && queue'.state.reserved ==
               queue.state.reserved - (if Holding(h.pc) then 1 else 0) + (if Holding(next.pc) then 1 else 0)
            && Rank(next.pc) < Rank(h.pc)
  {
    hide Inv;
    StepKeepsInv(queue, capacity, Reserve);
    StepKeepsInv(queue, capacity, Cancel);
    StepKeepsInv(queue, capacity, Commit(h.command));
  }

  lemma EachHandlerOk(handlers: seq<Handler>, queue: Config, i: nat)
    requires HandlersOk(handlers, queue) && i < |handlers|
    ensures HandlerOk(handlers[i], queue)
  {}

  lemma Owner(handlers: seq<Handler>, manager: Option<nat>, queueLock: Option<nat>, i: nat)
    requires LocksOk(handlers, manager, queueLock) && i < |handlers|
    ensures InManager(handlers[i].pc) <==> manager == Some(i)
    ensures InQueue(handlers[i].pc) <==> queueLock == Some(i)
  {}

  lemma ManagerStepKeepsInv(s: System, capacity: nat, i: nat, choice: Choice)
    requires SystemInv(s, capacity) && Enabled(s, i) && InManager(s.handlers[i].pc)
    ensures SystemInv(Advance(s, capacity, i, choice), capacity)
  {
    hide Inv, LocksOk, HandlersOk, ManagerBody, HandlerOk, Holding, Rank;
    var h := s.handlers[i];
    var next := ManagerBody(h, s.poisoned, choice);
    EachHandlerOk(s.handlers, s.queue, i);
    Owner(s.handlers, s.manager, s.queueLock, i);
    ManagerBodyOk(h, s.queue, s.poisoned, choice);
    HoldersUpdate(s.handlers, i, next);
    HandlerUpdate(s.handlers, s.queue, s.queue, i, next);
    LockUpdate(s.handlers, s.manager, s.queueLock, i, next, None, s.queueLock);
  }

  lemma AcquireKeepsInv(s: System, capacity: nat, i: nat, choice: Choice)
    requires SystemInv(s, capacity) && Enabled(s, i) && !InManager(s.handlers[i].pc) && !InQueue(s.handlers[i].pc)
    ensures SystemInv(Advance(s, capacity, i, choice), capacity)
  {
    hide Inv, LocksOk, HandlersOk, Acquired, HandlerOk, Holding, Rank;
    var h := s.handlers[i];
    var next := Acquired(h);
    EachHandlerOk(s.handlers, s.queue, i);
    Owner(s.handlers, s.manager, s.queueLock, i);
    AcquiredOk(h, s.queue);
    HoldersUpdate(s.handlers, i, next);
    HandlerUpdate(s.handlers, s.queue, s.queue, i, next);
    LockUpdate(s.handlers, s.manager, s.queueLock, i, next,
               if NeedsManager(h.pc) then Some(i) else s.manager, if NeedsManager(h.pc) then s.queueLock else Some(i));
  }

  lemma QueueStepKeepsInv(s: System, capacity: nat, i: nat, choice: Choice)
    requires SystemInv(s, capacity) && Enabled(s, i) && InQueue(s.handlers[i].pc)
    ensures SystemInv(Advance(s, capacity, i, choice), capacity)
  {
    hide Inv, LocksOk, HandlersOk, QueueBody, HandlerOk, Holding, Rank;
    var h := s.handlers[i];
    var (next, queue) := QueueBody(h, s.queue, capacity);
    EachHandlerOk(s.handlers, s.queue, i);
    Owner(s.handlers, s.manager, s.queueLock, i);
    HoldersUpdate(s.handlers, i, next);
    QueueBodyOk(h, s.queue, capacity);
    HandlerUpdate(s.handlers, s.queue, queue, i, next);
    LockUpdate(s.handlers, s.manager, s.queueLock, i, next, s.manager, None);
  }

  lemma TakeKeepsInv(s: System, capacity: nat, step: SystemStep)
    requires SystemInv(s, capacity) && Possible(s, step)
    ensures SystemInv(Take(s, capacity, step), capacity)
  {
    hide SystemInv;
    match step
    case Render(q) => RenderKeepsInv(s, capacity, q);
    case Handle(i, choice) =>
      if InManager(s.handlers[i].pc) { ManagerStepKeepsInv(s, capacity, i, choice); }
      else if InQueue(s.handlers[i].pc) { QueueStepKeepsInv(s, capacity, i, choice); }
      else { AcquireKeepsInv(s, capacity, i, choice); }
  }

  // ---------- Runs: no deadlock, and every handler finishes ----------

  ghost predicate Reaches(s: System, capacity: nat, steps: seq<SystemStep>, t: System)
    decreases |steps|
  {
    if steps == [] then s == t
    else Possible(s, steps[0]) && Reaches(Take(s, capacity, steps[0]), capacity, steps[1..], t)
  }

  lemma {:induction false} RunKeepsSystemInv(s: System, capacity: nat, steps: seq<SystemStep>, t: System)
    requires SystemInv(s, capacity) && Reaches(s, capacity, steps, t)
    ensures SystemInv(t, capacity)
    decreases |steps|
  {
    if steps != [] {
      TakeKeepsInv(s, capacity, steps[0]);
      RunKeepsSystemInv(Take(s, capacity, steps[0]), capacity, steps[1..], t);
    }
  }

  /** No handler waits for one lock while it owns the other. */
  lemma NoHoldAndWait(s: System, capacity: nat, i: nat)
    requires SystemInv(s, capacity) && i < |s.handlers|
    requires s.manager == Some(i) || s.queueLock == Some(i)
    ensures !NeedsManager(s.handlers[i].pc) && !NeedsQueue(s.handlers[i].pc) && !s.handlers[i].pc.Done?
    ensures !(s.manager == Some(i) && s.queueLock == Some(i))
  {}

  /** Who may go: a lock is there for a handler or the renderer exactly while no handler is inside its section. */
  lemma LocksExclude(s: System, capacity: nat, i: nat, q: Step)
    requires SystemInv(s, capacity) && i < |s.handlers|
    ensures NeedsManager(s.handlers[i].pc) ==>
              (Enabled(s, i) <==> forall k :: 0 <= k < |s.handlers| ==> !InManager(s.handlers[k].pc))
    ensures NeedsQueue(s.handlers[i].pc) ==>
              (Enabled(s, i) <==> forall k :: 0 <= k < |s.handlers| ==> !InQueue(s.handlers[k].pc))
    ensures Possible(s, Render(q)) <==>
            (q.Claim? || q.Acknowledge? || q.Nack?) && forall k :: 0 <= k < |s.handlers| ==> !InQueue(s.handlers[k].pc)
  {
    hide Inv;
    if s.manager.Some? { assert InManager(s.handlers[s.manager.value].pc); }
    if s.queueLock.Some? { assert InQueue(s.handlers[s.queueLock.value].pc); }
  }

  /** Whatever the locks look like, an unfinished system has a handler that can move. */
  lemma NoDeadlock(s: System, capacity: nat, i: nat)
    requires SystemInv(s, capacity) && i < |s.handlers| && !s.handlers[i].pc.Done?
    ensures exists k: nat :: k < |s.handlers| && Enabled(s, k)
  {
    hide Inv;
    if s.manager.Some? {
      assert Enabled(s, s.manager.value);
    } else if s.queueLock.Some? {
      assert Enabled(s, s.queueLock.value);
    } else {
      assert Enabled(s, i);
    }
  }

  function Work(handlers: seq<Handler>): nat {
    if handlers == [] then 0 else Work(handlers[..|handlers| - 1]) + Rank(handlers[|handlers| - 1].pc)
  }

  lemma {:induction false} WorkUpdate(handlers: seq<Handler>, i: nat, h: Handler)
    requires i < |handlers|
    ensures Work(handlers[i := h]) == Work(handlers) - Rank(handlers[i].pc) + Rank(h.pc)
  {
    var last := |handlers| - 1;
    if i == last {
      assert handlers[i := h][..last] == handlers[..last];
    } else {
      WorkUpdate(handlers[..last], i, h);
      assert handlers[i := h][..last] == handlers[..last][i := h];
    }
  }

  lemma SectionsLowerRank(h: Handler, queue: Config, capacity: nat, poisoned: bool, choice: Choice)
    ensures InManager(h.pc) ==> Rank(ManagerBody(h, poisoned, choice).pc) < Rank(h.pc)
    ensures InQueue(h.pc) ==> Rank(QueueBody(h, queue, capacity).0.pc) < Rank(h.pc)
    ensures NeedsManager(h.pc) || NeedsQueue(h.pc) ==> Rank(Acquired(h).pc) < Rank(h.pc)
  {
    hide Next, Size;
  }

  lemma HandleSpendsWork(s: System, capacity: nat, i: nat, choice: Choice)
    requires Enabled(s, i)
    ensures Work(Advance(s, capacity, i, choice).handlers) < Work(s.handlers)
  {
    hide Next, Size, ManagerBody, QueueBody, Acquired, Rank;
    var h := s.handlers[i];
    SectionsLowerRank(h, s.queue, capacity, s.poisoned, choice);
    WorkUpdate(s.handlers, i, if InManager(h.pc) then ManagerBody(h, s.poisoned, choice)
                              else if InQueue(h.pc) then QueueBody(h, s.queue, capacity).0 else Acquired(h));
  }

  function HandlerSteps(steps: seq<SystemStep>): nat
    decreases |steps|
  {
    if steps == [] then 0 else (if steps[0].Handle? then 1 else 0) + HandlerSteps(steps[1..])
  }

  /** Every schedule gives the handlers at most the work they started with, whatever the renderer does between. */
  lemma {:induction false} HandlersFinish(s: System, capacity: nat, steps: seq<SystemStep>, t: System)
    requires Reaches(s, capacity, steps, t)
    ensures HandlerSteps(steps) + Work(t.handlers) <= Work(s.handlers)
    decreases |steps|
  {
    if steps != [] {
      if steps[0].Handle? { HandleSpendsWork(s, capacity, steps[0].i, steps[0].choice); }
      HandlersFinish(Take(s, capacity, steps[0]), capacity, steps[1..], t);
    }
  }

  /**
   In every state of every run: a collection write that ran is about to commit or has committed its command, each
   accepted handler under a place of its own, a full queue means the write never ran, and once all handlers are
   done no slot is left reserved.
   */
  lemma WritesAreAnnounced(s: System, capacity: nat, steps: seq<SystemStep>, t: System, i: nat)
    requires Starting(s, capacity) && Reaches(s, capacity, steps, t) && i < |t.handlers|
    ensures var h := t.handlers[i];
            && (h.wrote && h.pc.Done? ==>
                  h.pc == Done(Accepted) && h.ticket.Some? && h.ticket.value < |t.queue.log.committed|
                  && t.queue.log.committed[h.ticket.value] == h.command)
            && (h.pc.Done? && h.pc.outcome != Accepted ==> !h.wrote && h.ticket.None?)
            && (h.pc == Done(Accepted) && h.writes ==> h.wrote)
    ensures forall k :: 0 <= k < |t.handlers| && k != i && t.handlers[k].pc == t.handlers[i].pc == Done(Accepted) ==>
              t.handlers[k].ticket != t.handlers[i].ticket
    ensures (forall k :: 0 <= k < |t.handlers| ==> t.handlers[k].pc.Done?) ==> t.queue.state.reserved == 0
    ensures Size(t.queue.state) <= capacity
  {
    StartingInv(s, capacity);
    RunKeepsSystemInv(s, capacity, steps, t);
    if forall k :: 0 <= k < |t.handlers| ==> t.handlers[k].pc.Done? { NoHolders(t.handlers); }
    assert HandlerOk(t.handlers[i], t.queue);
    forall k | 0 <= k < |t.handlers| && k != i && t.handlers[k].pc == t.handlers[i].pc == Done(Accepted)
      ensures t.handlers[k].ticket != t.handlers[i].ticket
    {
      assert HandlerOk(t.handlers[k], t.queue);
    }
  }

  /** The manager lock is poisoned exactly by a panic inside it, and stays so. */
  lemma PoisonedByPanics(s: System, capacity: nat, step: SystemStep)
    requires SystemInv(s, capacity) && Possible(s, step)
    ensures Take(s, capacity, step).poisoned <==>
            s.poisoned || (step.Handle? && s.manager == Some(step.i) && step.choice.Panics?)
  {
    hide Inv, Next, ManagerBody, QueueBody, HandlerOk;
  }

  // ---------- The response says what happened ----------

  /** Whether the manager lock was poisoned, and how the body ended. */
  datatype Met = Met(poisoned: bool, choice: Choice)

  /** What is seen of one handler from outside: how each of its critical sections over a lock was met. */
  datatype Facts = Facts(validated: Option<Met>, full: Option<bool>, written: Option<Met>)

  function Observed(f: Facts, s: System, capacity: nat, step: SystemStep, i: nat): Facts
    requires i < |s.handlers|
  {
    match step
    case Render(_) => f
    case Handle(k, choice) =>
      if k != i then f
      else match s.handlers[i].pc
        case Validating => f.(validated := Some(Met(s.poisoned, choice)))
        case Reserving => f.(full := Some(Size(s.queue.state) >= capacity))
        case Writing => f.(written := Some(Met(s.poisoned, choice)))
        case _ => f
  }

  lemma HandlersStay(s: System, capacity: nat, step: SystemStep)
    requires Possible(s, step)
    ensures |Take(s, capacity, step).handlers| == |s.handlers|
    ensures forall k :: 0 <= k < |s.handlers| && !(step.Handle? && step.i == k) ==>
              Take(s, capacity, step).handlers[k] == s.handlers[k]
  {
    hide Next, ManagerBody, QueueBody, Acquired;
  }

  function FactsOf(f: Facts, s: System, capacity: nat, steps: seq<SystemStep>, t: System, i: nat): Facts
    requires Reaches(s, capacity, steps, t) && i < |s.handlers|
    decreases |steps|
  {
    if steps == [] then f
    else
      HandlersStay(s, capacity, steps[0]);
      FactsOf(Observed(f, s, capacity, steps[0], i), Take(s, capacity, steps[0]), capacity, steps[1..], t, i)
  }

  predicate Went(m: Option<Met>) { m == Some(Met(false, Fine)) }

  /** How a section over the manager that did not go well is reported. */
  function Trouble(m: Met, missing: Outcome): Outcome {
    if m.poisoned then Unavailable
    else match m.choice
      case Missing => missing
      case Failed => OperationFailed
      case Panics => Crashed
      case Fine => Accepted
  }

  /** The response a handler owes: the first thing that went wrong, or acceptance. */
  function Owed(writes: bool, f: Facts): Outcome
    requires f.validated.Some? && (Went(f.validated) ==> f.full.Some?)
    requires Went(f.validated) && !f.full.value && writes ==> f.written.Some?
  {
    if !Went(f.validated) then Trouble(f.validated.value, NotFound)
    else if f.full.value then QueueRejected
    else if writes && !Went(f.written) then Trouble(f.written.value, OperationFailed)
    else Accepted
  }

  ghost predicate AgreesToCancel(h: Handler, f: Facts, reason: Outcome) {
    && Went(f.validated) && f.full == Some(false) && h.writes
    && f.written.Some? && !Went(f.written) && reason == Trouble(f.written.value, OperationFailed)
  }

  /** Where a handler stands agrees with what has been seen of it. */
  ghost predicate Agrees(h: Handler, f: Facts) {
    && (h.wrote <==> Went(f.written)) && (f.written.Some? ==> h.writes)
    && match h.pc
       case WantValidate => f == Facts(None, None, None)
       case Validating => f == Facts(None, None, None)
       case WantReserve => Went(f.validated) && f.full.None? && f.written.None?
       case Reserving => Went(f.validated) && f.full.None? && f.written.None?
       case WantWrite => Went(f.validated) && f.full == Some(false) && f.written.None? && h.writes
       case Writing => Went(f.validated) && f.full == Some(false) && f.written.None? && h.writes
       case WantCommit => Went(f.validated) && f.full == Some(false) && (h.writes ==> Went(f.written))
       case Committing => Went(f.validated) && f.full == Some(false) && (h.writes ==> Went(f.written))
       case WantCancel(reason) => AgreesToCancel(h, f, reason)
       case Cancelling(reason) => AgreesToCancel(h, f, reason)
       case Done(outcome) =>
         && f.validated.Some? && (Went(f.validated) ==> f.full.Some?)
         && (Went(f.validated) && !f.full.value && h.writes ==> f.written.Some?)
         && outcome == Owed(h.writes, f)
  }

  lemma HandlerAgrees(s: System, capacity: nat, i: nat, choice: Choice, f: Facts)
    requires Enabled(s, i) && Agrees(s.handlers[i], f)
    ensures Agrees(Advance(s, capacity, i, choice).handlers[i], Observed(f, s, capacity, Handle(i, choice), i))
  {
    hide Next, Size;
  }

  lemma StepAgrees(s: System, capacity: nat, step: SystemStep, i: nat, f: Facts)
    requires Possible(s, step) && i < |s.handlers| && Agrees(s.handlers[i], f)
    ensures i < |Take(s, capacity, step).handlers|
    ensures Agrees(Take(s, capacity, step).handlers[i], Observed(f, s, capacity, step, i))
  {
    hide Next, Size;
    HandlersStay(s, capacity, step);
    if step.Handle? && step.i == i { HandlerAgrees(s, capacity, i, step.choice, f); }
  }

  lemma {:induction false} RunAgrees(s: System, capacity: nat, steps: seq<SystemStep>, t: System, i: nat, f: Facts)
    requires Reaches(s, capacity, steps, t) && i < |s.handlers| && Agrees(s.handlers[i], f)
    ensures i < |t.handlers| && Agrees(t.handlers[i], FactsOf(f, s, capacity, steps, t, i))
    decreases |steps|
  {
    hide Agrees, Observed, Take, Possible;
    if steps == [] {
    } else {
      StepAgrees(s, capacity, steps[0], i, f);
      HandlersStay(s, capacity, steps[0]);
      RunAgrees(Take(s, capacity, steps[0]), capacity, steps[1..], t, i, Observed(f, s, capacity, steps[0], i));
    }
  }

  /**
   In every run, whatever the other handlers and the renderer do, a finished handler answers with the first thing that
   went wrong in its own critical sections and with acceptance if nothing did, and its write has run exactly if the
   section of the write went well.
   */
  lemma ResponseSaysWhatHappened(s: System, capacity: nat, steps: seq<SystemStep>, t: System, i: nat)
    requires Starting(s, capacity) && Reaches(s, capacity, steps, t) && i < |s.handlers|
    ensures var f := FactsOf(Facts(None, None, None), s, capacity, steps, t, i);
            && i < |t.handlers| && (t.handlers[i].wrote <==> Went(f.written))
            && (t.handlers[i].pc.Done? ==>
                && f.validated.Some? && (Went(f.validated) ==> f.full.Some?)
                && (Went(f.validated) && !f.full.value && t.handlers[i].writes ==> f.written.Some?)
                && t.handlers[i].pc.outcome == Owed(t.handlers[i].writes, f))
  {
    hide Inv;
    assert s.handlers[i] == Fresh(s.handlers[i].writes, s.handlers[i].command);
    RunAgrees(s, capacity, steps, t, i, Facts(None, None, None));
  }
}
