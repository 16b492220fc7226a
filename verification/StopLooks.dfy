/** What a worker may still read of the caller's flags once a stop is requested. */
module StopLooks {
  import opened Machine
  import opened Hits
  import opened WorkerPool
  import opened WorkerPoolSafety
  import opened MiningResult

  // ---- Looks at the caller's flags after a stop ----

  /** The step in which worker `i` reads the cancel flag, or the version, that the caller owns. */
  predicate LooksAt(s: State, e: Event, i: nat, version: bool) {
    && e.Work? && e.i == i && i < |s.workers|
    && if version then s.workers[i].pc.CheckVersion? else s.workers[i].pc.CheckCancel?
  }

  function Looks(states: seq<State>, events: seq<Event>, i: nat, version: bool): nat
    requires |states| == |events| + 1
  {
    if events == [] then 0
    else
      var n := |events| - 1;
      Looks(states[..n + 1], events[..n], i, version) + if LooksAt(states[n], events[n], i, version) then 1 else 0
  }

  /** Past the look at the stop and not past the one at the flag: how many looks at it are to come after a stop. */
  function LooksLeft(pc: WorkerPc, version: bool): nat {
    if pc.CheckQuit? || pc.CheckFound? || pc.CheckCancel? || (version && pc.CheckVersion?) then 1 else 0
  }

  /** Only worker `i` moves. */
  ghost predicate Only(s: State, t: State, i: nat) {
    i < |s.workers| == |t.workers| && t.signals == s.signals && t.workers == s.workers[i := t.workers[i]]
  }

  /** Worker `i` moves, and is not about to look at the caller's flags. */
  ghost predicate MovesOn(s: State, t: State, i: nat) {
    Only(s, t, i) && LooksLeft(t.workers[i].pc, false) == LooksLeft(t.workers[i].pc, true) == 0
  }

  lemma AwaitedMoves(s: State, i: nat)
    requires i < |s.workers|
    ensures MovesOn(s, Awaited(s, i), i)
  {
  }

  lemma SearchMoves(s: State, i: nat, batch: nat)
    requires i < |s.workers|
    ensures MovesOn(s, SearchTurn(s, i, batch), i)
  {
  }

  lemma CompletedMoves(s: State, i: nat, current: bool, last: bool)
    requires i < |s.workers|
    ensures MovesOn(s, Completed(s, i, current, last), i)
  {
  }

  lemma GotoMoves(s: State, i: nat, pc: WorkerPc, slot: Slot)
    requires i < |s.workers| && !Checking(pc)
    ensures MovesOn(s, Goto(s, i, pc), i) && MovesOn(s, Goto(s, i, pc).(slot := slot), i)
  {
  }

  lemma ResultedMoves(s: State, i: nat, pc: WorkerPc)
    requires i < |s.workers|
    ensures MovesOn(s, Resulted(s, i, pc), i)
  {
    var mine := WorkerTask(s.workers[i].job, i);
    match pc
    case Claiming(k) =>
      GotoMoves(s, i, Completing, s.slot);
      GotoMoves(s, i, StoringNonce(k), Claim(s.slot, i, k));
    case StoringNonce(k) => GotoMoves(s, i, StoringHash(k), StoreNonce(s.slot, NonceAt(mine, k)));
    case StoringHash(k) => GotoMoves(s, i, Completing, StoreHash(s.slot, FoundAt(mine, k).hash));
    case Failed => GotoMoves(s, i, Reporting, FlagFailure(s.slot, i));
    case _ => GotoMoves(s, i, Completing, Report(s.slot, i, s.workers[i].observed == s.gen));
  }

  /** The looks left before and after, with the one that is taken. */
  predicate Fewer(before: WorkerPc, after: WorkerPc, version: bool) {
    LooksLeft(after, version) + (if (if version then before.CheckVersion? else before.CheckCancel?) then 1 else 0)
    <= LooksLeft(before, version)
  }

  lemma CheckedOnly(s: State, i: nat)
    requires i < |s.workers| && Checking(s.workers[i].pc)
    ensures Only(s, Checked(s, i, s.workers[i].pc), i)
  {
  }

  lemma CheckedFewer(s: State, i: nat, version: bool)
    requires i < |s.workers| && Checking(s.workers[i].pc) && s.signals.stop
    ensures Fewer(s.workers[i].pc, Checked(s, i, s.workers[i].pc).workers[i].pc, version)
  {
  }

  lemma LoopedMoves(s: State, i: nat)
    requires i < |s.workers|
    ensures MovesOn(s, SetWorker(s, i, Looped(s.workers[i])), i)
  {
  }

  /** A step of a worker that is not looking at the flags. */
  lemma TurnMovesOn(s: State, i: nat, batch: nat)
    requires i < |s.workers| && !Checking(s.workers[i].pc)
    ensures MovesOn(s, WorkerTurn(s, i, batch), i)
  {
    var w := s.workers[i];
    assert s.workers[i := w] == s.workers;
    AwaitedMoves(s, i);
    LoopedMoves(s, i);
    SearchMoves(s, i, batch);
    CompletedMoves(s, i, w.observed == s.gen, s.completed + 1 >= |s.workers|);
    ResultedMoves(s, i, w.pc);
  }

  lemma TurnOnly(s: State, i: nat, batch: nat)
    requires i < |s.workers|
    ensures Only(s, WorkerTurn(s, i, batch), i)
  {
    if Checking(s.workers[i].pc) {
      CheckedOnly(s, i);
    } else {
      TurnMovesOn(s, i, batch);
    }
  }

  lemma TurnFewer(s: State, i: nat, batch: nat, version: bool, t: State)
    requires i < |s.workers| && s.signals.stop && |t.workers| == |s.workers| && t == WorkerTurn(s, i, batch)
    ensures Fewer(s.workers[i].pc, t.workers[i].pc, version)
  {
    if Checking(s.workers[i].pc) {
      CheckedFewer(s, i, version);
    } else {
      TurnMovesOn(s, i, batch);
    }
  }

  /** Workers only go to `Waiting`, if anywhere. */
  ghost predicate Rouses(before: seq<Worker>, after: seq<Worker>) {
    |after| == |before| && forall i :: 0 <= i < |before| ==> after[i] == before[i] || after[i].pc.Waiting?
  }

  lemma WakeRouses(workers: seq<Worker>)
    ensures Rouses(workers, WakeWorkers(workers))
  {
  }

  lemma NotifyRouses(s: State, job: Task)
    requires s.publisher.Notifying? || s.publisher.ShutNotifyWork?
    ensures var t := PublisherTurn(s, job); t.signals.stop == s.signals.stop && Rouses(s.workers, t.workers)
  {
    WakeRouses(s.workers);
  }

  lemma SpawnRouses(s: State, next: nat)
    ensures var t := Spawned(s, next); t.signals.stop == s.signals.stop && Rouses(s.workers, t.workers)
  {
  }

  lemma GotoRouses(s: State, publisher: PublisherPc)
    ensures var t := s.(publisher := publisher); t.signals.stop == s.signals.stop && Rouses(s.workers, t.workers)
  {
  }

  lemma ResetRouses(s: State, job: Task)
    requires s.publisher.ResetQuit? || s.publisher.ResetFound? || s.publisher.ResetShared? || s.publisher.Publishing?
    ensures var t := PublisherTurn(s, job); t.signals.stop == s.signals.stop && Rouses(s.workers, t.workers)
  {
  }

  lemma ShutRouses(s: State, job: Task)
    requires s.publisher.Clearing? || s.publisher.ShutQuit? || s.publisher.ShutShared?
    ensures var t := PublisherTurn(s, job); t.signals.stop == s.signals.stop && Rouses(s.workers, t.workers)
  {
  }

  lemma PublisherRouses(s: State, job: Task)
    ensures var t := PublisherTurn(s, job); t.signals.stop == s.signals.stop && Rouses(s.workers, t.workers)
  {
    match s.publisher
    case Notifying => NotifyRouses(s, job);
    case ShutNotifyWork => NotifyRouses(s, job);
    case Spawning(next) => SpawnRouses(s, next);
    case ResetQuit => ResetRouses(s, job);
    case ResetFound => ResetRouses(s, job);
    case ResetShared => ResetRouses(s, job);
    case Publishing => ResetRouses(s, job);
    case Clearing(_) => ShutRouses(s, job);
    case ShutQuit => ShutRouses(s, job);
    case ShutShared => ShutRouses(s, job);
    case _ => GotoRouses(s, PublisherGoto(s));
  }

  lemma StopperQuiet(s: State, i: nat)
    requires i < |s.stoppers| && !s.stoppers[i].NotifyWork?
    ensures var t := StopperTurn(s, i); t.workers == s.workers && (s.signals.stop ==> t.signals.stop)
  {
  }

  lemma StopperRouses(s: State, i: nat)
    requires i < |s.stoppers|
    ensures var t := StopperTurn(s, i); (s.signals.stop ==> t.signals.stop) && Rouses(s.workers, t.workers)
  {
    if s.stoppers[i].NotifyWork? {
      WakeRouses(s.workers);
    } else {
      StopperQuiet(s, i);
    }
  }

  lemma OtherEvents(s: State, e: Event)
    requires Enabled(s, e) && !e.Work? && !e.Advance? && !e.Throw?
    ensures var t := Next(s, e); (s.signals.stop ==> t.signals.stop) && Rouses(s.workers, t.workers)
  {
    if e.RequestStop? {
      StopperRouses(s, e.i);
    }
  }

  lemma ThrowMoves(s: State, j: nat)
    requires Enabled(s, Throw(j))
    ensures MovesOn(s, Next(s, Throw(j)), j)
  {
  }

  lemma StopStays(s: State, e: Event, i: nat, version: bool)
    requires Enabled(s, e) && s.signals.stop && i < |s.workers|
    ensures var t := Next(s, e);
            && t.signals.stop && |t.workers| == |s.workers|
            && LooksLeft(t.workers[i].pc, version) + (if LooksAt(s, e, i, version) then 1 else 0)
               <= LooksLeft(s.workers[i].pc, version)
  {
    match e
    case Work(j, batch) =>
      TurnOnly(s, j, batch);
      TurnFewer(s, j, batch, version, WorkerTurn(s, j, batch));
    case Advance(job) => PublisherRouses(s, job);
    case Throw(j) => ThrowMoves(s, j);
    case _ => OtherEvents(s, e);
  }

  /** After a stop, whatever happens, a worker reads each of the caller's flags at most once more, and only if it was
      past its look at the stop and not yet past the one at the flag. */
  lemma {:induction false} LastLook(states: seq<State>, events: seq<Event>, i: nat, version: bool)
    requires Schedule(states, events) && states[0].signals.stop && i < |states[0].workers|
    ensures var last := states[|events|];
            && last.signals.stop && |last.workers| == |states[0].workers|
            && Looks(states, events, i, version) + LooksLeft(last.workers[i].pc, version)
               <= LooksLeft(states[0].workers[i].pc, version)
    decreases |events|
  {
    if events != [] {
      var n := |events| - 1;
      assert Schedule(states[..n + 1], events[..n]) by {
        forall m | 0 <= m < n
          ensures LeadsTo(states[..n + 1][m], events[..n][m], states[..n + 1][m + 1])
        {
          assert LeadsTo(states[m], events[m], states[m + 1]);
        }
      }
      LastLook(states[..n + 1], events[..n], i, version);
      assert LeadsTo(states[n], events[n], states[n + 1]);
      StopStays(states[n], events[n], i, version);
    }
  }

  // ---- A look after the call has returned ----

  /** One worker, one stopper, no stop so far. */
  predicate Calm(s: State, publisher: PublisherPc, pc: WorkerPc) {
    && |s.workers| == 1 && s.workers[0].pc == pc && s.publisher == publisher && s.stoppers == [Resting]
    && !s.signals.stop && !s.workStop && !s.finished
  }

  ghost predicate From(start: State, states: seq<State>, events: seq<Event>) {
    Schedule(states, events) && states[0] == start
  }

  lemma Starts(start: State, job: Task) returns (states: seq<State>, events: seq<Event>)
    requires Initial(start) && |start.workers| == 1 && start.stoppers == [Resting] && job.step == 1
    ensures From(start, states, events)
    ensures Calm(states[|events|], Outside, Waiting) && states[|events|].workers[0].observed == 0
    ensures states[|events|].gen == 0 && !states[|events|].signals.quit
  {
    states, events := [start], [];
    states, events := Extend(states, events, Advance(job));
    states, events := Extend(states, events, Advance(job));
    states, events := Extend(states, events, Advance(job));
    states, events := Extend(states, events, Advance(job));
    states, events := Extend(states, events, Advance(job));
  }

  lemma Publishes(start: State, states: seq<State>, events: seq<Event>, job: Task)
      returns (more: seq<State>, all: seq<Event>)
    requires From(start, states, events) && job.step == 1
    requires Calm(states[|events|], Outside, Waiting) && states[|events|].workers[0].observed == 0
    requires states[|events|].gen == 0 && !states[|events|].signals.quit
    ensures From(start, more, all)
    ensures Calm(more[|all|], Notifying, Waiting) && more[|all|].workers[0].observed == 0
    ensures more[|all|].gen == 1 && !more[|all|].signals.quit && !more[|all|].slot.found
  {
    more, all := Extend(states, events, Advance(job));
    more, all := Extend(more, all, Advance(job));
    more, all := Extend(more, all, Advance(job));
  }

  lemma WorkerBegins(start: State, states: seq<State>, events: seq<Event>, job: Task)
      returns (more: seq<State>, all: seq<Event>)
    requires From(start, states, events) && job.step == 1
    requires Calm(states[|events|], Notifying, Waiting) && states[|events|].workers[0].observed == 0
    requires states[|events|].gen == 1 && !states[|events|].signals.quit && !states[|events|].slot.found
    ensures From(start, more, all) && Calm(more[|all|], Testing, CheckStop)
    ensures !more[|all|].signals.quit && !more[|all|].slot.found
  {
    more, all := Extend(states, events, Advance(job));
    more, all := Extend(more, all, Work(0, 1));
    more, all := Extend(more, all, Work(0, 1));
  }

  lemma WorkerLooks(start: State, states: seq<State>, events: seq<Event>) returns (more: seq<State>, all: seq<Event>)
    requires From(start, states, events) && Calm(states[|events|], Testing, CheckStop)
    requires !states[|events|].signals.quit && !states[|events|].slot.found
    ensures From(start, more, all) && Calm(more[|all|], Testing, CheckCancel)
  {
    more, all := Extend(states, events, Work(0, 1));
    more, all := Extend(more, all, Work(0, 1));
    more, all := Extend(more, all, Work(0, 1));
  }

  lemma CallReturns(start: State, states: seq<State>, events: seq<Event>, job: Task)
      returns (more: seq<State>, all: seq<Event>)
    requires From(start, states, events) && Calm(states[|events|], Testing, CheckCancel) && job.step == 1
    ensures From(start, more, all)
    ensures var s := more[|all|];
            && s.signals.stop && s.publisher.Outside? && s.returned.Interrupted?
            && |s.workers| == 1 && s.workers[0].pc.CheckCancel?
  {
    more, all := Extend(states, events, RequestStop(0));
    more, all := Extend(more, all, Advance(job));
    more, all := Extend(more, all, Advance(job));
  }

  /** After a stop `QuietOutside` fails: from every initial state with one worker there is a run in which the call has
      returned, interrupted, while the worker is about to read the caller's flag. */
  lemma LooksAfterReturn(start: State, job: Task) returns (states: seq<State>, events: seq<Event>)
    requires Initial(start) && |start.workers| == 1 && start.stoppers == [Resting] && job.step == 1
    ensures Run(states, events) && states[0] == start
    ensures var s := states[|events|];
            && s.signals.stop && s.publisher.Outside? && s.returned.Interrupted?
            && |s.workers| == 1 && s.workers[0].pc.CheckCancel?
  {
    states, events := Starts(start, job);
    states, events := Publishes(start, states, events, job);
    states, events := WorkerBegins(start, states, events, job);
    states, events := WorkerLooks(start, states, events);
    states, events := CallReturns(start, states, events, job);
  }
}
