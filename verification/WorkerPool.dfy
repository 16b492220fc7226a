/** The pool of mining workers as a state machine: one step per lock region or atomic access, taken by one publisher,
    the workers and the threads that request a stop, in any order. */
module WorkerPool {
  import opened Machine
  import opened Target
  import opened Hits

  // ---- States ----

  datatype WorkerPc =
    | NotStarted
    | Waiting                 // about to test its condition under the lock
    | Asleep                  // inside the wait
    | Exited
    | Looping                 // top of the search loop
    | CheckStop | CheckQuit | CheckFound | CheckCancel | CheckVersion | CheckPaused
    | Searching
    | Claiming(k: nat)        // nonce number k met the target
    | StoringNonce(k: nat)
    | StoringHash(k: nat)
    | Failed                  // an exception was caught
    | Reporting               // about to record the exception under the lock
    | Completing              // about to count itself under the lock

  /** The flags that end a search. */
  datatype Cause = StopFlag | QuitFlag | CancelFlag | VersionFlag

  /** `rounds` counts completed generations, `left` says which flag ended the search of the current one, and `failed`
      whether it ended by an exception; all three are history. */
  datatype Worker = Worker(
    pc: WorkerPc, observed: nat, job: Task, counter: nat, tried: nat, rounds: nat, left: Option<Cause>, failed: bool)

  /** How a call of `mine_block` ended; `Threw` names the worker whose exception it passed on. */
  datatype Returned = Nothing | Interrupted | Solved(found: Found) | NoHit | Threw(worker: nat)

  datatype PublisherPc =
    | ResetQuit | ResetFound | ResetShared
    | Spawning(next: nat)     // starts the workers, once
    | Outside                 // not inside mine_block
    | Ready                   // saw no stop; builds a job
    | Publishing
    | Notifying
    | Testing                 // about to test its condition under the lock
    | Sleeping
    | ReadFound | ReadNonce | ReadHash(nonce: u64)
    | Clearing(returned: Returned)
    | ShutQuit | ShutShared | ShutNotifyWork | ShutNotifyDone
    | Joining(next: nat)
    | Gone

  datatype StopperPc = Resting | SetQuit | SetWorkStop | NotifyWork | NotifyDone

  /** The flags that anyone may set. `cancelSeen` and `versionSeen` are history: whether the job was cancelled, or
      outdated, at some time in the current generation. */
  datatype Signals = Signals(
    stop: bool, quit: bool, cancel: bool, newVersion: bool, paused: bool, cancelSeen: bool, versionSeen: bool)

  /** The result of the current generation; `error` names the worker whose exception is stored. `winner`, `stored` and
      `reporter` are history: who claimed it with which nonce, how much of it is written, and who failed last. */
  datatype Slot = Slot(
    found: bool, nonce: u64, hash: Bytes32, error: Option<nat>,
    winner: Option<(nat, nat)>, stored: nat, reporter: Option<nat>)

  datatype State = State(
    gen: nat, job: Task, completed: nat, finished: bool, workStop: bool, started: bool,
    signals: Signals, slot: Slot,
    workers: seq<Worker>, publisher: PublisherPc, returned: Returned, stoppers: seq<StopperPc>)

  predicate Idle(pc: WorkerPc) {
    pc.NotStarted? || pc.Waiting? || pc.Asleep? || pc.Exited?
  }

  /** Inside the try block. */
  predicate Trying(pc: WorkerPc) {
    !Idle(pc) && !pc.Failed? && !pc.Reporting? && !pc.Completing?
  }

  predicate BeforeHit(pc: WorkerPc) {
    Trying(pc) && !pc.Claiming? && !pc.StoringNonce? && !pc.StoringHash?
  }

  const NO_HASH: Bytes32 := Repeated(0, 32)

  const EMPTY_SLOT := Slot(false, 0, NO_HASH, None, None, 0, None)

  predicate Initial(s: State) {
    && |s.workers| > 0 && s.job.step == |s.workers|
    && s.gen == 0 && !s.finished && s.completed == 0 && s.slot == EMPTY_SLOT
    && !s.started && !s.signals.stop && !s.workStop
    && s.publisher == ResetQuit && s.returned == Nothing
    && (forall i :: 0 <= i < |s.workers| ==>
          s.workers[i].pc.NotStarted? && s.workers[i].observed == 0 && s.workers[i].rounds == 0)
    && (forall i :: 0 <= i < |s.stoppers| ==> s.stoppers[i].Resting?)
  }

  // ---- Steps of a worker ----

  function SetWorker(s: State, i: nat, w: Worker): State
    requires i < |s.workers|
  {
    s.(workers := s.workers[i := w])
  }

  function Goto(s: State, i: nat, pc: WorkerPc): State
    requires i < |s.workers|
  {
    SetWorker(s, i, s.workers[i].(pc := pc))
  }

  /** A look at one flag: leave the loop, or look at the next one. */
  function Look(s: State, i: nat, flag: bool, cause: Cause, next: WorkerPc): State
    requires i < |s.workers|
  {
    if flag then SetWorker(s, i, s.workers[i].(pc := Completing, left := Some(cause))) else Goto(s, i, next)
  }

  /** Takes the current job; the first pass through the loop looks at the flags. */
  function Begun(s: State, w: Worker): Worker {
    w.(pc := Looping, observed := s.gen, job := s.job, counter := CONTROL_CHECK_INTERVAL, tried := 0,
       left := None, failed := false)
  }

  function Looped(w: Worker): Worker {
    if w.counter + 1 >= CONTROL_CHECK_INTERVAL then w.(pc := CheckStop, counter := 0)
    else w.(pc := Searching, counter := w.counter + 1)
  }

  function Searched(w: Worker, batch: nat, hit: Option<nat>): Worker {
    if hit.Some? then w.(pc := Claiming(hit.value)) else w.(pc := Looping, tried := w.tried + batch)
  }

  /** The compare-and-swap succeeded. */
  function Claim(slot: Slot, i: nat, k: nat): Slot {
    slot.(found := true, winner := Some((i, k)), stored := 0)
  }

  function StoreNonce(slot: Slot, nonce: u64): Slot {
    slot.(nonce := nonce, stored := 1)
  }

  function StoreHash(slot: Slot, hash: Bytes32): Slot {
    slot.(hash := hash, stored := 2)
  }

  function FlagFailure(slot: Slot, i: nat): Slot {
    slot.(found := true, reporter := Some(i))
  }

  /** The first exception of a generation is kept. */
  function Report(slot: Slot, i: nat, current: bool): Slot {
    if current && slot.error.None? then slot.(error := Some(i)) else slot
  }

  /** Counts the worker if the generation is still its own; the last one finishes it. */
  function Completed(s: State, i: nat, current: bool, last: bool): State
    requires i < |s.workers|
  {
    var t := SetWorker(s, i, s.workers[i].(pc := Waiting, rounds := s.workers[i].rounds + 1));
    if !current then t
    else if last then t.(completed := s.completed + 1, finished := true, publisher := Woken(s.publisher))
    else t.(completed := s.completed + 1)
  }

  /** Tests the condition of the wait under the lock. */
  function Awaited(s: State, i: nat): State
    requires i < |s.workers|
  {
    if !s.workStop && s.gen == s.workers[i].observed then Goto(s, i, Asleep)
    else if s.workStop then Goto(s, i, Exited)
    else SetWorker(s, i, Begun(s, s.workers[i]))
  }

  /** A step of the look at the flags. */
  function Checked(s: State, i: nat, pc: WorkerPc): State
    requires i < |s.workers|
  {
    match pc
    case CheckStop => Look(s, i, s.signals.stop, StopFlag, CheckQuit)
    case CheckQuit => Look(s, i, s.signals.quit, QuitFlag, CheckFound)
    case CheckFound => Goto(s, i, if s.slot.found then Completing else CheckCancel)
    case CheckCancel => Look(s, i, s.signals.cancel, CancelFlag, CheckVersion)
    case CheckVersion => Look(s, i, s.signals.newVersion, VersionFlag, CheckPaused)
    case _ => Goto(s, i, if s.signals.paused then Looping else Searching)
  }

  /** A step of a worker that found a hit or failed. */
  function Resulted(s: State, i: nat, pc: WorkerPc): State
    requires i < |s.workers|
  {
    var mine := WorkerTask(s.workers[i].job, i);
    match pc
    case Claiming(k) =>
      if s.slot.found then Goto(s, i, Completing) else Goto(s, i, StoringNonce(k)).(slot := Claim(s.slot, i, k))
    case StoringNonce(k) => Goto(s, i, StoringHash(k)).(slot := StoreNonce(s.slot, NonceAt(mine, k)))
    case StoringHash(k) => Goto(s, i, Completing).(slot := StoreHash(s.slot, FoundAt(mine, k).hash))
    case Failed => Goto(s, i, Reporting).(slot := FlagFailure(s.slot, i))
    case _ => Goto(s, i, Completing).(slot := Report(s.slot, i, s.workers[i].observed == s.gen))
  }

  function SearchTurn(s: State, i: nat, batch: nat): State
    requires i < |s.workers|
  {
    var w := s.workers[i];
    SetWorker(s, i, Searched(w, batch, FirstHit(WorkerTask(w.job, i), w.tried + batch)))
  }

  predicate Checking(pc: WorkerPc) {
    pc.CheckStop? || pc.CheckQuit? || pc.CheckFound? || pc.CheckCancel? || pc.CheckVersion? || pc.CheckPaused?
  }

  /** The next step of worker `i`; a search step takes `batch` nonces. */
  function WorkerTurn(s: State, i: nat, batch: nat): State
    requires i < |s.workers|
  {
    var w := s.workers[i];
    if w.pc.NotStarted? || w.pc.Exited? || w.pc.Asleep? then s
    else if w.pc.Waiting? then Awaited(s, i)
    else if w.pc.Looping? then SetWorker(s, i, Looped(w))
    else if w.pc.Searching? then SearchTurn(s, i, batch)
    else if Checking(w.pc) then Checked(s, i, w.pc)
    else if w.pc.Completing? then Completed(s, i, w.observed == s.gen, s.completed + 1 >= |s.workers|)
    else Resulted(s, i, w.pc)
  }

  function Woken(pc: PublisherPc): PublisherPc {
    if pc.Sleeping? then Testing else pc
  }

  function WakeWorkers(workers: seq<Worker>): (woken: seq<Worker>)
    ensures |woken| == |workers|
    ensures forall i :: 0 <= i < |workers| ==>
              woken[i] == if workers[i].pc.Asleep? then workers[i].(pc := Waiting) else workers[i]
  {
    seq(|workers|, i requires 0 <= i < |workers| =>
      if workers[i].pc.Asleep? then workers[i].(pc := Waiting) else workers[i])
  }

  // ---- Steps of the publisher ----

  /** Everything a new job sets, under the lock. */
  function Publish(s: State, job: Task): State {
    s.(job := job, gen := s.gen + 1, completed := 0, finished := false, slot := EMPTY_SLOT,
       signals := s.signals.(cancelSeen := s.signals.cancel, versionSeen := s.signals.newVersion),
       publisher := Notifying, returned := Nothing)
  }

  function ResetAll(s: State): State {
    s.(workStop := false, finished := false, completed := 0, slot := s.slot.(error := None), started := true,
       publisher := Spawning(0))
  }

  function Spawned(s: State, next: nat): State {
    if next < |s.workers| then Goto(s, next, Waiting).(publisher := Spawning(next + 1))
    else s.(publisher := Outside)
  }

  /** Where the publisher goes when it has tested its condition. */
  function Tested(s: State): PublisherPc {
    if !s.finished && !s.signals.stop then Sleeping
    else if !s.finished then Clearing(Interrupted)
    else if s.slot.error.Some? then Clearing(Threw(s.slot.error.value))
    else ReadFound
  }

  function Joined(s: State, next: nat): PublisherPc {
    if next >= |s.workers| then Gone
    else if s.workers[next].pc.Exited? then Joining(next + 1)
    else Joining(next)
  }

  function AfterClearing(returned: Returned): PublisherPc {
    if returned.Threw? then ShutQuit else Outside
  }

  /** Where the publisher goes next in a step that changes nothing else. */
  function PublisherGoto(s: State): PublisherPc {
    match s.publisher
    case Outside => if s.signals.stop then ShutQuit else Ready
    case Ready => Publishing
    case Testing => Tested(s)
    case ReadFound => if s.slot.found then ReadNonce else Clearing(NoHit)
    case ReadNonce => ReadHash(s.slot.nonce)
    case ReadHash(nonce) => Clearing(Solved(Found(nonce, s.slot.hash)))
    case ShutNotifyDone => Joining(0)
    case Joining(next) => Joined(s, next)
    case _ => s.publisher
  }

  /** The publisher's next step; `job` is the job it builds, if it publishes one. */
  function PublisherTurn(s: State, job: Task): State {
    match s.publisher
    case ResetQuit => s.(signals := s.signals.(quit := false), publisher := ResetFound)
    case ResetFound => s.(slot := s.slot.(found := false), publisher := ResetShared)
    case ResetShared => ResetAll(s)
    case Spawning(next) => Spawned(s, next)
    case Publishing => Publish(s, job)
    case Notifying => s.(workers := WakeWorkers(s.workers), publisher := Testing)
    case Clearing(returned) => s.(returned := returned, publisher := AfterClearing(returned))
    case ShutQuit => s.(signals := s.signals.(quit := true), publisher := ShutShared)
    case ShutShared => s.(workStop := true, finished := true, publisher := ShutNotifyWork)
    case ShutNotifyWork => s.(workers := WakeWorkers(s.workers), publisher := ShutNotifyDone)
    case _ => s.(publisher := PublisherGoto(s))
  }

  // ---- Steps of a stopper ----

  function StopperTurn(s: State, i: nat): State
    requires i < |s.stoppers|
  {
    match s.stoppers[i]
    case Resting => s.(signals := s.signals.(stop := true), stoppers := s.stoppers[i := SetQuit])
    case SetQuit => s.(signals := s.signals.(quit := true), stoppers := s.stoppers[i := SetWorkStop])
    case SetWorkStop => s.(workStop := true, stoppers := s.stoppers[i := NotifyWork])
    case NotifyWork => s.(workers := WakeWorkers(s.workers), stoppers := s.stoppers[i := NotifyDone])
    case NotifyDone => s.(publisher := Woken(s.publisher), stoppers := s.stoppers[i := Resting])
  }

  // ---- Runs ----

  datatype Event =
    | Work(i: nat, batch: nat)
    | Throw(i: nat)                  // any exception inside the try block
    | Wake(i: nat)                   // a spurious wake-up
    | Advance(job: Task)
    | GiveUp                         // an exception outside mine_block
    | WakePublisher
    | RequestStop(i: nat)
    | Flags(cancel: bool, newVersion: bool, paused: bool)

  predicate Enabled(s: State, e: Event) {
    match e
    case Work(i, batch) => i < |s.workers| && batch > 0
    case Throw(i) => i < |s.workers| && Trying(s.workers[i].pc)
    case Wake(i) => i < |s.workers| && s.workers[i].pc.Asleep?
    case Advance(job) => job.step == |s.workers|
    case GiveUp => s.publisher.Outside? || s.publisher.Ready?
    case WakePublisher => s.publisher.Sleeping?
    case RequestStop(i) => i < |s.stoppers|
    case Flags(_, _, _) => true
  }

  function Next(s: State, e: Event): State
    requires Enabled(s, e)
  {
    match e
    case Work(i, batch) => WorkerTurn(s, i, batch)
    case Throw(i) => SetWorker(s, i, s.workers[i].(pc := Failed, failed := true))
    case Wake(i) => Goto(s, i, Waiting)
    case Advance(job) => PublisherTurn(s, job)
    case GiveUp => s.(publisher := ShutQuit)
    case WakePublisher => s.(publisher := Testing)
    case RequestStop(i) => StopperTurn(s, i)
    case Flags(cancel, newVersion, paused) =>
      s.(signals := s.signals.(cancel := cancel, newVersion := newVersion, paused := paused,
                               cancelSeen := s.signals.cancelSeen || cancel,
                               versionSeen := s.signals.versionSeen || newVersion))
  }

  ghost predicate LeadsTo(s: State, e: Event, t: State) {
    Enabled(s, e) && t == Next(s, e)
  }

  /** A run: from an initial state, one step after another. */
  ghost predicate Run(states: seq<State>, events: seq<Event>) {
    && |states| == |events| + 1 && Initial(states[0])
    && forall n :: 0 <= n < |events| ==> LeadsTo(states[n], events[n], states[n + 1])
  }

  ghost predicate Reachable(s: State) {
    exists states, events :: Run(states, events) && states[|events|] == s
  }
}
