/** What every run of the worker pool keeps. */
module WorkerPoolSafety {
  import opened Machine
  import opened Hits
  import opened WorkerPool

  // ---- Counting the workers that are done ----

  predicate Done(w: Worker, gen: nat) {
    Idle(w.pc) && w.observed == gen
  }

  function CountDone(ws: seq<Worker>, gen: nat): nat {
    if ws == [] then 0 else CountDone(ws[..|ws| - 1], gen) + (if Done(ws[|ws| - 1], gen) then 1 else 0)
  }

  lemma {:induction false} CountUpdate(ws: seq<Worker>, gen: nat, i: nat, w: Worker)
    requires i < |ws|
    ensures CountDone(ws[i := w], gen)
         == CountDone(ws, gen) - (if Done(ws[i], gen) then 1 else 0) + (if Done(w, gen) then 1 else 0)
  {
    var n := |ws| - 1;
    if i < n {
      CountUpdate(ws[..n], gen, i, w);
      assert ws[i := w][..n] == ws[..n][i := w];
    } else {
      assert ws[i := w][..n] == ws[..n];
    }
  }

  lemma {:induction false} CountSame(ws: seq<Worker>, vs: seq<Worker>, gen: nat)
    requires |ws| == |vs| && forall i :: 0 <= i < |ws| ==> Done(ws[i], gen) == Done(vs[i], gen)
    ensures CountDone(ws, gen) == CountDone(vs, gen)
  {
    if ws != [] {
      CountSame(ws[..|ws| - 1], vs[..|vs| - 1], gen);
    }
  }

  lemma {:induction false} CountAll(ws: seq<Worker>, gen: nat)
    ensures CountDone(ws, gen) <= |ws|
    ensures CountDone(ws, gen) == |ws| <==> AllDone(ws, gen)
  {
    if ws != [] {
      var n := |ws| - 1;
      CountAll(ws[..n], gen);
      if CountDone(ws, gen) == |ws| {
        forall i | 0 <= i < |ws|
          ensures Done(ws[i], gen)
        {
          assert i < n ==> ws[..n][i] == ws[i];
        }
      }
    }
  }

  lemma {:induction false} CountNone(ws: seq<Worker>, gen: nat)
    requires forall i :: 0 <= i < |ws| ==> !Done(ws[i], gen)
    ensures CountDone(ws, gen) == 0
  {
    if ws != [] {
      CountNone(ws[..|ws| - 1], gen);
    }
  }

  // ---- The invariant ----

  predicate AllDone(ws: seq<Worker>, gen: nat) {
    forall i :: 0 <= i < |ws| ==> Done(ws[i], gen)
  }

  predicate AllExited(ws: seq<Worker>, below: nat) {
    forall i :: 0 <= i < below && i < |ws| ==> ws[i].pc.Exited?
  }

  /** Everyone is done with the generation, and left the search because of a flag. */
  predicate AllLeft(ws: seq<Worker>, gen: nat) {
    forall i :: 0 <= i < |ws| ==> Done(ws[i], gen) && ws[i].left.Some?
  }

  /** What the workers' part of the invariant depends on: `waking` says whether someone is about to wake the sleeping
      workers, `stopping` whether a stop was requested or the pool is shut down, `spawned` how many workers exist. */
  datatype View = View(
    gen: nat, job: Task, slot: Slot, signals: Signals, workStop: bool, waking: bool, stopping: bool, spawned: nat)

  predicate AfterShut(pc: PublisherPc) {
    pc.ShutNotifyWork? || pc.ShutNotifyDone? || pc.Joining? || pc.Gone?
  }

  predicate WorkersWillWake(s: State) {
    s.publisher.Notifying? || s.publisher.ShutNotifyWork? || NotifyWork in s.stoppers
  }

  /** A thread that requested the stop has yet to wake the publisher. */
  predicate StopPending(stoppers: seq<StopperPc>) {
    SetQuit in stoppers || SetWorkStop in stoppers || NotifyWork in stoppers || NotifyDone in stoppers
  }

  predicate Stopping(s: State) {
    s.signals.stop || AfterShut(s.publisher)
  }

  function SpawnedOf(s: State): nat {
    if !s.started then 0 else if s.publisher.Spawning? then s.publisher.next else |s.workers|
  }

  function ViewOf(s: State): View {
    View(s.gen, s.job, s.slot, s.signals, s.workStop, WorkersWillWake(s), Stopping(s), SpawnedOf(s))
  }

  predicate FirstAt(task: Task, k: nat) {
    FirstHit(task, k + 1) == Some(k)
  }

  /** The flag was up. */
  predicate CauseOk(signals: Signals, cause: Cause) {
    match cause
    case StopFlag => signals.stop
    case QuitFlag => signals.quit
    case CancelFlag => signals.cancelSeen
    case VersionFlag => signals.versionSeen
  }

  /** The worker has ended its search in generation `gen`. */
  predicate Ended(w: Worker, gen: nat) {
    w.pc.Completing? || (Done(w, gen) && gen > 0)
  }

  /** What a worker has searched and found. */
  predicate SearchOk(job: Task, slot: Slot, i: nat, w: Worker) {
    && (BeforeHit(w.pc) ==> FirstHit(WorkerTask(job, i), w.tried).None?)
    && (w.pc.Claiming? ==> FirstAt(WorkerTask(job, i), w.pc.k))
    && (w.pc.StoringNonce? ==> slot.winner == Some((i, w.pc.k)) && slot.stored == 0)
    && (w.pc.StoringHash? ==> slot.winner == Some((i, w.pc.k)) && slot.stored == 1)
  }

  /** Why a worker left the search. */
  predicate LeftOk(v: View, w: Worker) {
    && (w.pc.Failed? || w.pc.Reporting? ==> w.failed)
    && (w.pc.Reporting? ==> v.slot.found)
    && (Ended(w, v.gen) ==> v.slot.found || w.left.Some?)
    && (w.left.Some? && w.observed == v.gen && v.gen > 0 ==> CauseOk(v.signals, w.left.value))
  }

  ghost predicate WorkerOk(v: View, i: nat, w: Worker) {
    && w.observed <= v.gen <= w.observed + 1
    && w.rounds == (if Idle(w.pc) then w.observed else w.observed - 1)
    && (!Idle(w.pc) ==> w.observed == v.gen && w.job == v.job)
    && SearchOk(v.job, v.slot, i, w) && LeftOk(v, w)
    && (w.pc.Asleep? && (v.workStop || w.observed != v.gen) ==> v.waking)
    && (w.pc.NotStarted? <==> i >= v.spawned)
    && (w.pc.Exited? ==> v.stopping)
  }

  ghost predicate AllOk(v: View, ws: seq<Worker>) {
    forall i: nat {:trigger WorkerOk(v, i, ws[i])} :: i < |ws| ==> WorkerOk(v, i, ws[i])
  }

  /** The worker failed in generation `gen`. */
  predicate FailedIn(ws: seq<Worker>, gen: nat, i: nat) {
    i < |ws| && ws[i].failed && ws[i].observed == gen
  }

  predicate IsAt(ws: seq<Worker>, i: nat, pc: WorkerPc) {
    i < |ws| && ws[i].pc == pc
  }

  predicate Failing(ws: seq<Worker>, i: nat) {
    i < |ws| && (ws[i].pc.Failed? || ws[i].pc.Reporting?)
  }

  /** The claim on the current generation, and how far its result is written. */
  predicate SlotOk(slot: Slot, job: Task, ws: seq<Worker>) {
    && (slot.found && slot.winner == None && slot.error == None ==>
          slot.reporter.Some? && IsAt(ws, slot.reporter.value, Reporting))
    && (slot.winner.Some? ==> slot.found && slot.winner.value.0 < |ws| && slot.stored <= 2)
    && (slot.winner.Some? ==> WinnerOk(slot, job, slot.winner.value.0, slot.winner.value.1))
    && (slot.winner.Some? && slot.stored < 2 && slot.error == None ==>
          WritingOk(slot, ws, slot.winner.value.0, slot.winner.value.1))
  }

  predicate WinnerOk(slot: Slot, job: Task, i: nat, k: nat) {
    && FirstAt(WorkerTask(job, i), k)
    && (slot.stored >= 1 ==> slot.nonce == NonceAt(WorkerTask(job, i), k))
    && (slot.stored == 2 ==> slot.hash == FoundAt(WorkerTask(job, i), k).hash)
  }

  /** A half-written result is being written, or its writer has failed. */
  predicate WritingOk(slot: Slot, ws: seq<Worker>, i: nat, k: nat) {
    Failing(ws, i) || IsAt(ws, i, if slot.stored == 0 then StoringNonce(k) else StoringHash(k))
  }

  predicate ErrorOk(slot: Slot, gen: nat, ws: seq<Worker>) {
    slot.error.Some? ==> slot.found && FailedIn(ws, gen, slot.error.value)
  }

  predicate CountOk(gen: nat, completed: nat, ws: seq<Worker>) {
    if gen > 0 then completed == CountDone(ws, gen) else completed == 0
  }

  predicate FinishedOk(s: State) {
    !AfterShut(s.publisher) ==> (s.finished <==> s.gen > 0 && s.completed >= |s.workers|)
  }

  /** What a finished call promises. */
  predicate ReturnedOk(s: State, r: Returned) {
    match r
    case Nothing => true
    case Interrupted => s.signals.stop
    case Threw(i) => FailedIn(s.workers, s.gen, i)
    case NoHit => s.gen > 0 && AllLeft(s.workers, s.gen)
    case Solved(found) =>
      s.slot.winner.Some? && found == FoundAt(WorkerTask(s.job, s.slot.winner.value.0), s.slot.winner.value.1)
  }

  /** Nobody is at work, unless a stop was requested. */
  predicate Quiet(s: State) {
    AllDone(s.workers, s.gen) || s.signals.stop
  }

  predicate Starting(pc: PublisherPc) {
    pc.ResetQuit? || pc.ResetFound? || pc.ResetShared? || pc.Spawning?
  }

  predicate Waits(pc: PublisherPc) {
    pc.Notifying? || pc.Testing? || pc.Sleeping?
  }

  predicate Reads(pc: PublisherPc) {
    pc.ReadFound? || pc.ReadNonce? || pc.ReadHash?
  }

  /** Where the publisher is says who is at work and what it has seen. */
  predicate PlaceOk(s: State) {
    var pc := s.publisher;
    && (s.started <==> !pc.ResetQuit? && !pc.ResetFound? && !pc.ResetShared?)
    && (Starting(pc) ==> s.gen == 0 && AllDone(s.workers, s.gen))
    && (Waits(pc) || Reads(pc) ==> s.gen > 0)
    && (pc.Ready? || pc.Publishing? || Reads(pc) ==> AllDone(s.workers, s.gen))
    && (!Waits(pc) ==> Quiet(s))
    && (pc.Sleeping? ==> !s.finished && (s.signals.stop ==> StopPending(s.stoppers)))
    && (Reads(pc) ==> s.slot.error.None?)
    && (pc.ReadNonce? || pc.ReadHash? ==> s.slot.found)
    && (pc.ReadHash? ==> pc.nonce == s.slot.nonce)
  }

  /** The end of a call, and of the pool. */
  predicate EndOk(s: State) {
    var pc := s.publisher;
    && (pc.Clearing? ==> ReturnedOk(s, pc.returned))
    && (AfterShut(pc) ==> s.workStop)
    && (pc.Joining? ==> AllExited(s.workers, pc.next))
    && (pc.Gone? ==> AllExited(s.workers, |s.workers|))
  }

  predicate PublisherOk(s: State) {
    PlaceOk(s) && EndOk(s)
  }

  predicate GlobalOk(s: State) {
    && |s.workers| > 0 && s.job.step == |s.workers|
    && (s.gen == 0 ==> !s.slot.found && s.slot.winner == None && s.slot.error == None)
    && (s.workStop ==> Stopping(s))
    && (StopPending(s.stoppers) ==> s.signals.stop)
    && (s.signals.cancel ==> s.signals.cancelSeen || s.gen == 0)
    && (s.signals.newVersion ==> s.signals.versionSeen || s.gen == 0)
  }

  ghost predicate Inv(s: State) {
    && GlobalOk(s) && AllOk(ViewOf(s), s.workers)
    && SlotOk(s.slot, s.job, s.workers) && ErrorOk(s.slot, s.gen, s.workers)
    && CountOk(s.gen, s.completed, s.workers) && FinishedOk(s)
    && PublisherOk(s) && ReturnedOk(s, s.returned)
  }

  lemma InitialInv(s: State)
    requires Initial(s)
    ensures Inv(s)
  {
    forall i: nat | i < |s.workers|
      ensures WorkerOk(ViewOf(s), i, s.workers[i])
    {
    }
  }

  // ---- How the workers' part carries over ----

  lemma OkUpdate(v: View, ws: seq<Worker>, i: nat, w: Worker)
    requires i < |ws| && AllOk(v, ws) && WorkerOk(v, i, w)
    ensures AllOk(v, ws[i := w])
  {
    var after := ws[i := w];
    forall j: nat | j < |after|
      ensures WorkerOk(v, j, after[j])
    {
      assert j != i ==> WorkerOk(v, j, ws[j]);
    }
  }

  /** The slot changes, but neither is it given up nor is another worker's claim touched. */
  predicate SlotStep(before: Slot, after: Slot, i: nat) {
    && (before.found ==> after.found)
    && (before.winner == None || before.winner.value.0 == i
        || (after.winner == before.winner && after.stored == before.stored))
  }

  lemma OtherOk(v: View, slot: Slot, i: nat, j: nat, w: Worker)
    requires WorkerOk(v, j, w) && j != i && SlotStep(v.slot, slot, i)
    ensures WorkerOk(v.(slot := slot), j, w)
  {
  }

  lemma OkSlot(v: View, slot: Slot, ws: seq<Worker>, i: nat, w: Worker)
    requires i < |ws| && AllOk(v, ws) && SlotStep(v.slot, slot, i) && WorkerOk(v.(slot := slot), i, w)
    ensures AllOk(v.(slot := slot), ws[i := w])
  {
    var after := ws[i := w];
    forall j: nat | j < |after|
      ensures WorkerOk(v.(slot := slot), j, after[j])
    {
      if j != i {
        assert WorkerOk(v, j, ws[j]);
        OtherOk(v, slot, i, j, ws[j]);
      }
    }
  }

  /** Everything that workers rely on is still so. */
  ghost predicate Later(v: View, u: View) {
    && u.gen == v.gen && u.job == v.job && u.slot == v.slot && u.spawned == v.spawned
    && (v.waking || (u.workStop && !v.workStop) ==> u.waking) && (v.stopping ==> u.stopping)
    && (v.gen > 0 ==> SignalsLater(v.signals, u.signals))
  }

  predicate SignalsLater(a: Signals, b: Signals) {
    && (a.stop ==> b.stop) && (a.quit ==> b.quit)
    && (a.cancelSeen ==> b.cancelSeen) && (a.versionSeen ==> b.versionSeen)
  }

  lemma StillOk(v: View, u: View, i: nat, w: Worker)
    requires WorkerOk(v, i, w) && Later(v, u)
    ensures WorkerOk(u, i, w)
  {
  }

  lemma OkLater(v: View, u: View, ws: seq<Worker>)
    requires AllOk(v, ws) && Later(v, u)
    ensures AllOk(u, ws)
  {
    forall i: nat | i < |ws|
      ensures WorkerOk(u, i, ws[i])
    {
      assert WorkerOk(v, i, ws[i]);
      StillOk(v, u, i, ws[i]);
    }
  }

  function Wake(w: Worker): Worker {
    if w.pc.Asleep? then w.(pc := Waiting) else w
  }

  lemma WokenOk(v: View, u: View, i: nat, w: Worker)
    requires WorkerOk(v, i, w) && u == v.(waking := u.waking)
    ensures WorkerOk(u, i, Wake(w))
  {
  }

  lemma OkWoken(v: View, u: View, ws: seq<Worker>)
    requires AllOk(v, ws) && u == v.(waking := u.waking)
    ensures AllOk(u, WakeWorkers(ws))
  {
    forall i: nat | i < |ws|
      ensures WorkerOk(u, i, WakeWorkers(ws)[i])
    {
      assert WorkerOk(v, i, ws[i]);
      WokenOk(v, u, i, ws[i]);
    }
  }

  // ---- One worker moves ----

  /** A half-written result is left only by failing, and a report only by recording it. */
  predicate MayLeave(from: WorkerPc, to: WorkerPc) {
    !from.Reporting? && (from.StoringNonce? || from.StoringHash? || from.Failed? ==> to.Failed?)
  }

  /** What a step of one worker keeps when it leaves the slot alone. */
  predicate MayMove(v: Worker, w: Worker, gen: nat) {
    && (Done(v, gen) <==> Done(w, gen)) && (v.pc.Exited? ==> w.pc.Exited?) && MayLeave(v.pc, w.pc)
    && (v.failed && v.observed == gen ==> w.failed && w.observed == gen)
    && (Done(v, gen) ==> w.left == v.left)
  }

  lemma SlotMoved(slot: Slot, job: Task, ws: seq<Worker>, i: nat, w: Worker)
    requires i < |ws| && SlotOk(slot, job, ws) && MayLeave(ws[i].pc, w.pc)
    ensures SlotOk(slot, job, ws[i := w])
  {
  }

  lemma AllMoved(ws: seq<Worker>, gen: nat, i: nat, w: Worker, below: nat)
    requires i < |ws| && MayMove(ws[i], w, gen)
    ensures AllDone(ws, gen) ==> AllDone(ws[i := w], gen)
    ensures AllLeft(ws, gen) ==> AllLeft(ws[i := w], gen)
    ensures AllExited(ws, below) ==> AllExited(ws[i := w], below)
  {
  }

  lemma ReturnedMoved(s: State, i: nat, w: Worker, r: Returned)
    requires i < |s.workers| && MayMove(s.workers[i], w, s.gen) && ReturnedOk(s, r)
    ensures ReturnedOk(SetWorker(s, i, w), r)
  {
    AllMoved(s.workers, s.gen, i, w, 0);
  }

  lemma PublisherMoved(s: State, i: nat, w: Worker)
    requires i < |s.workers| && MayMove(s.workers[i], w, s.gen) && PublisherOk(s)
    ensures PublisherOk(SetWorker(s, i, w))
  {
    AllMoved(s.workers, s.gen, i, w, if s.publisher.Joining? then s.publisher.next else |s.workers|);
    if s.publisher.Clearing? {
      ReturnedMoved(s, i, w, s.publisher.returned);
    }
  }

  lemma CountMoved(s: State, i: nat, w: Worker)
    requires i < |s.workers| && MayMove(s.workers[i], w, s.gen) && CountOk(s.gen, s.completed, s.workers)
    ensures CountOk(s.gen, s.completed, s.workers[i := w])
  {
    CountUpdate(s.workers, s.gen, i, w);
  }

  /** A step that changes nothing but one worker. */
  lemma Moved(s: State, i: nat, w: Worker)
    requires i < |s.workers| && Inv(s) && WorkerOk(ViewOf(s), i, w) && MayMove(s.workers[i], w, s.gen)
    ensures Inv(SetWorker(s, i, w))
  {
    var t := SetWorker(s, i, w);
    assert AllOk(ViewOf(t), t.workers) by {
      OkUpdate(ViewOf(s), s.workers, i, w);
    }
    assert SlotOk(t.slot, t.job, t.workers) by {
      SlotMoved(s.slot, s.job, s.workers, i, w);
    }
    assert CountOk(t.gen, t.completed, t.workers) by {
      CountMoved(s, i, w);
    }
    assert PublisherOk(t) by {
      PublisherMoved(s, i, w);
    }
    assert ReturnedOk(t, t.returned) by {
      ReturnedMoved(s, i, w, s.returned);
    }
  }

  lemma Known(s: State, i: nat)
    requires Inv(s) && i < |s.workers|
    ensures WorkerOk(ViewOf(s), i, s.workers[i])
  {
  }

  lemma Awaits(s: State, i: nat)
    requires Inv(s) && i < |s.workers| && s.workers[i].pc.Waiting?
    ensures Inv(Awaited(s, i))
  {
    Known(s, i);
    Moved(s, i, Awaited(s, i).workers[i]);
  }

  lemma Loops(s: State, i: nat)
    requires Inv(s) && i < |s.workers| && s.workers[i].pc.Looping?
    ensures Inv(SetWorker(s, i, Looped(s.workers[i])))
  {
    Known(s, i);
    Moved(s, i, Looped(s.workers[i]));
  }

  lemma FirstIsFirst(task: Task, n: nat)
    requires FirstHit(task, n).Some?
    ensures FirstAt(task, FirstHit(task, n).value)
  {
  }

  lemma Searches(s: State, i: nat, batch: nat, hit: Option<nat>)
    requires Inv(s) && i < |s.workers| && s.workers[i].pc.Searching?
    requires hit == FirstHit(WorkerTask(s.job, i), s.workers[i].tried + batch)
    ensures Inv(SetWorker(s, i, Searched(s.workers[i], batch, hit)))
  {
    Known(s, i);
    if hit.Some? {
      FirstIsFirst(WorkerTask(s.job, i), s.workers[i].tried + batch);
    }
    Moved(s, i, Searched(s.workers[i], batch, hit));
  }

  /** From one place before a hit to another, or out of the search once something is found. */
  lemma Goes(s: State, i: nat, pc: WorkerPc)
    requires Inv(s) && i < |s.workers| && BeforeHit(s.workers[i].pc)
    requires BeforeHit(pc) || (pc.Completing? && s.slot.found)
    ensures Inv(Goto(s, i, pc))
  {
    Known(s, i);
    Moved(s, i, s.workers[i].(pc := pc));
  }

  lemma Looks(s: State, i: nat, flag: bool, cause: Cause, next: WorkerPc)
    requires Inv(s) && i < |s.workers| && BeforeHit(s.workers[i].pc) && BeforeHit(next)
    requires flag ==> CauseOk(s.signals, cause)
    ensures Inv(Look(s, i, flag, cause, next))
  {
    Known(s, i);
    if flag {
      Moved(s, i, s.workers[i].(pc := Completing, left := Some(cause)));
    } else {
      Goes(s, i, next);
    }
  }

  lemma Throws(s: State, i: nat)
    requires Inv(s) && i < |s.workers| && Trying(s.workers[i].pc)
    ensures Inv(SetWorker(s, i, s.workers[i].(pc := Failed, failed := true)))
  {
    Known(s, i);
    Moved(s, i, s.workers[i].(pc := Failed, failed := true));
  }

  lemma Wakes(s: State, i: nat)
    requires Inv(s) && i < |s.workers| && s.workers[i].pc.Asleep?
    ensures Inv(Goto(s, i, Waiting))
  {
    Known(s, i);
    Moved(s, i, s.workers[i].(pc := Waiting));
  }

  lemma Yields(s: State, i: nat)
    requires Inv(s) && i < |s.workers| && s.workers[i].pc.Claiming? && s.slot.found
    ensures Inv(Goto(s, i, Completing))
  {
    Known(s, i);
    Moved(s, i, s.workers[i].(pc := Completing));
  }

  lemma SeenInTime(s: State, i: nat)
    requires Inv(s) && i < |s.workers| && !Idle(s.workers[i].pc)
    ensures s.signals.cancel ==> s.signals.cancelSeen
    ensures s.signals.newVersion ==> s.signals.versionSeen
    ensures s.workers[i].job == s.job && s.workers[i].observed == s.gen > 0
  {
    Known(s, i);
  }

  lemma FlagKeeps(s: State, i: nat, pc: WorkerPc)
    requires Inv(s) && i < |s.workers| && s.workers[i].pc == pc && (pc.CheckStop? || pc.CheckQuit?)
    ensures Inv(Checked(s, i, pc))
  {
    if pc.CheckStop? {
      Looks(s, i, s.signals.stop, StopFlag, CheckQuit);
    } else {
      Looks(s, i, s.signals.quit, QuitFlag, CheckFound);
    }
  }

  lemma JobFlagKeeps(s: State, i: nat, pc: WorkerPc)
    requires Inv(s) && i < |s.workers| && s.workers[i].pc == pc && (pc.CheckCancel? || pc.CheckVersion?)
    ensures Inv(Checked(s, i, pc))
  {
    SeenInTime(s, i);
    if pc.CheckCancel? {
      Looks(s, i, s.signals.cancel, CancelFlag, CheckVersion);
    } else {
      Looks(s, i, s.signals.newVersion, VersionFlag, CheckPaused);
    }
  }

  lemma FoundKeeps(s: State, i: nat)
    requires Inv(s) && i < |s.workers| && s.workers[i].pc.CheckFound?
    ensures Inv(Checked(s, i, CheckFound))
  {
    Goes(s, i, if s.slot.found then Completing else CheckCancel);
  }

  lemma PausedKeeps(s: State, i: nat)
    requires Inv(s) && i < |s.workers| && s.workers[i].pc.CheckPaused?
    ensures Inv(Checked(s, i, CheckPaused))
  {
    Goes(s, i, if s.signals.paused then Looping else Searching);
  }

  // ---- A worker claims, writes, fails ----

  /** Worker `i`, which is at work, moves and changes the slot. */
  function Slotted(s: State, i: nat, pc: WorkerPc, slot: Slot): State
    requires i < |s.workers|
  {
    Goto(s, i, pc).(slot := slot)
  }

  lemma CountActive(s: State, i: nat, pc: WorkerPc)
    requires i < |s.workers| && !Idle(s.workers[i].pc) && !Idle(pc) && CountOk(s.gen, s.completed, s.workers)
    ensures CountOk(s.gen, s.completed, s.workers[i := s.workers[i].(pc := pc)])
  {
    CountUpdate(s.workers, s.gen, i, s.workers[i].(pc := pc));
  }

  lemma NobodyReads(s: State, i: nat)
    requires i < |s.workers| && !Idle(s.workers[i].pc)
    ensures !AllDone(s.workers, s.gen) && !AllLeft(s.workers, s.gen)
  {
    assert !Done(s.workers[i], s.gen);
  }

  lemma ReturnedSlotted(s: State, i: nat, pc: WorkerPc, slot: Slot, r: Returned)
    requires i < |s.workers| && !Idle(s.workers[i].pc) && ReturnedOk(s, r)
    requires slot.winner == s.slot.winner || s.slot.winner.None?
    ensures ReturnedOk(Slotted(s, i, pc, slot), r)
  {
    NobodyReads(s, i);
  }

  lemma PublisherSlotted(s: State, i: nat, pc: WorkerPc, slot: Slot)
    requires i < |s.workers| && !Idle(s.workers[i].pc) && !Idle(pc) && PublisherOk(s)
    requires slot.winner == s.slot.winner || s.slot.winner.None?
    ensures PublisherOk(Slotted(s, i, pc, slot))
  {
    PlaceSlotted(s, i, pc, slot);
    EndSlotted(s, i, pc, slot);
  }

  lemma PlaceSlotted(s: State, i: nat, pc: WorkerPc, slot: Slot)
    requires i < |s.workers| && !Idle(s.workers[i].pc) && PlaceOk(s)
    ensures PlaceOk(Slotted(s, i, pc, slot))
  {
    NobodyReads(s, i);
    var was := s.publisher;
    assert !was.Ready? && !was.Publishing? && !Reads(was) && !Starting(was);
  }

  lemma EndSlotted(s: State, i: nat, pc: WorkerPc, slot: Slot)
    requires i < |s.workers| && !Idle(s.workers[i].pc) && EndOk(s)
    requires slot.winner == s.slot.winner || s.slot.winner.None?
    ensures EndOk(Slotted(s, i, pc, slot))
  {
    if s.publisher.Clearing? {
      ReturnedSlotted(s, i, pc, slot, s.publisher.returned);
    } else {
      var below := if s.publisher.Joining? then s.publisher.next else |s.workers|;
      ExitedSlotted(s.workers, i, s.workers[i].(pc := pc), below);
    }
  }

  lemma ExitedSlotted(ws: seq<Worker>, i: nat, w: Worker, below: nat)
    requires i < |ws| && !ws[i].pc.Exited?
    ensures AllExited(ws, below) ==> AllExited(ws[i := w], below)
  {
  }

  lemma SlotKeeps(s: State, i: nat, pc: WorkerPc, slot: Slot)
    requires Inv(s) && i < |s.workers| && !Idle(s.workers[i].pc) && !Idle(pc)
    requires SlotStep(s.slot, slot, i) && (slot.winner == s.slot.winner || s.slot.winner.None?)
    requires WorkerOk(ViewOf(s).(slot := slot), i, s.workers[i].(pc := pc))
    requires SlotOk(slot, s.job, s.workers[i := s.workers[i].(pc := pc)])
    requires ErrorOk(slot, s.gen, s.workers[i := s.workers[i].(pc := pc)])
    ensures Inv(Slotted(s, i, pc, slot))
  {
    var t := Slotted(s, i, pc, slot);
    SeenInTime(s, i);
    assert AllOk(ViewOf(t), t.workers) by {
      OkSlot(ViewOf(s), slot, s.workers, i, s.workers[i].(pc := pc));
    }
    assert CountOk(t.gen, t.completed, t.workers) by {
      CountActive(s, i, pc);
    }
    assert PublisherOk(t) by {
      PublisherSlotted(s, i, pc, slot);
    }
    assert ReturnedOk(t, t.returned) by {
      ReturnedSlotted(s, i, pc, slot, s.returned);
    }
  }

  lemma Claims(s: State, i: nat, k: nat)
    requires Inv(s) && i < |s.workers| && s.workers[i].pc == Claiming(k) && !s.slot.found
    ensures Inv(Slotted(s, i, StoringNonce(k), Claim(s.slot, i, k)))
  {
    Known(s, i);
    SlotKeeps(s, i, StoringNonce(k), Claim(s.slot, i, k));
  }

  lemma StoresNonce(s: State, i: nat, k: nat, nonce: u64)
    requires Inv(s) && i < |s.workers| && s.workers[i].pc == StoringNonce(k)
    requires nonce == NonceAt(WorkerTask(s.job, i), k)
    ensures Inv(Slotted(s, i, StoringHash(k), StoreNonce(s.slot, nonce)))
  {
    Known(s, i);
    SlotKeeps(s, i, StoringHash(k), StoreNonce(s.slot, nonce));
  }

  lemma StoresHash(s: State, i: nat, k: nat, hash: Bytes32)
    requires Inv(s) && i < |s.workers| && s.workers[i].pc == StoringHash(k)
    requires hash == FoundAt(WorkerTask(s.job, i), k).hash
    ensures Inv(Slotted(s, i, Completing, StoreHash(s.slot, hash)))
  {
    Known(s, i);
    SlotKeeps(s, i, Completing, StoreHash(s.slot, hash));
  }

  lemma FlagsFailure(s: State, i: nat)
    requires Inv(s) && i < |s.workers| && s.workers[i].pc.Failed?
    ensures Inv(Slotted(s, i, Reporting, FlagFailure(s.slot, i)))
  {
    Known(s, i);
    SlotKeeps(s, i, Reporting, FlagFailure(s.slot, i));
  }

  lemma Reports(s: State, i: nat)
    requires Inv(s) && i < |s.workers| && s.workers[i].pc.Reporting?
    ensures Inv(Slotted(s, i, Completing, Report(s.slot, i, true)))
  {
    Known(s, i);
    SlotKeeps(s, i, Completing, Report(s.slot, i, true));
  }

  lemma ClaimKeeps(s: State, i: nat, k: nat)
    requires Inv(s) && i < |s.workers| && s.workers[i].pc == Claiming(k)
    ensures Inv(Resulted(s, i, Claiming(k)))
  {
    if s.slot.found {
      Yields(s, i);
    } else {
      Claims(s, i, k);
    }
  }

  lemma StoreKeeps(s: State, i: nat, pc: WorkerPc)
    requires Inv(s) && i < |s.workers| && s.workers[i].pc == pc && (pc.StoringNonce? || pc.StoringHash?)
    ensures Inv(Resulted(s, i, pc))
  {
    SeenInTime(s, i);
    if pc.StoringNonce? {
      StoresNonce(s, i, pc.k, NonceAt(WorkerTask(s.job, i), pc.k));
    } else {
      StoresHash(s, i, pc.k, FoundAt(WorkerTask(s.job, i), pc.k).hash);
    }
  }

  lemma FailKeeps(s: State, i: nat, pc: WorkerPc)
    requires Inv(s) && i < |s.workers| && s.workers[i].pc == pc && (pc.Failed? || pc.Reporting?)
    ensures Inv(Resulted(s, i, pc))
  {
    SeenInTime(s, i);
    if pc.Failed? {
      FlagsFailure(s, i);
    } else {
      Reports(s, i);
    }
  }

  // ---- A worker completes ----

  function Counted(w: Worker): Worker {
    w.(pc := Waiting, rounds := w.rounds + 1)
  }

  lemma CountOneMore(s: State, i: nat)
    requires i < |s.workers| && s.workers[i].pc.Completing? && s.workers[i].observed == s.gen > 0
    requires CountOk(s.gen, s.completed, s.workers)
    ensures CountOk(s.gen, s.completed + 1, s.workers[i := Counted(s.workers[i])])
  {
    CountUpdate(s.workers, s.gen, i, Counted(s.workers[i]));
  }

  lemma PublisherCounted(s: State, t: State, i: nat, last: bool)
    requires i < |s.workers| && s.workers[i].pc.Completing? && PublisherOk(s)
    requires t == Completed(s, i, true, last)
    ensures PublisherOk(t)
  {
    NobodyReads(s, i);
    if s.publisher.Clearing? {
      assert ReturnedOk(s, s.publisher.returned);
      assert ReturnedOk(t, s.publisher.returned);
    }
    ExitedSlotted(s.workers, i, Counted(s.workers[i]), if s.publisher.Joining? then s.publisher.next else |s.workers|);
  }

  lemma WorkersCounted(s: State, i: nat)
    requires Inv(s) && i < |s.workers| && s.workers[i].pc.Completing?
    ensures AllOk(ViewOf(s), s.workers[i := Counted(s.workers[i])])
  {
    Known(s, i);
    OkUpdate(ViewOf(s), s.workers, i, Counted(s.workers[i]));
  }

  lemma SameView(s: State, i: nat, last: bool)
    requires i < |s.workers|
    ensures ViewOf(Completed(s, i, true, last)) == ViewOf(s)
  {
  }

  lemma ReturnedCounted(s: State, i: nat, last: bool)
    requires i < |s.workers| && s.workers[i].pc.Completing? && ReturnedOk(s, s.returned)
    ensures ReturnedOk(Completed(s, i, true, last), s.returned)
  {
    NobodyReads(s, i);
  }

  lemma FinishedCounted(s: State, i: nat, last: bool)
    requires i < |s.workers| && FinishedOk(s) && s.gen > 0 && last == (s.completed + 1 >= |s.workers|)
    ensures FinishedOk(Completed(s, i, true, last))
  {
  }

  lemma Completes(s: State, i: nat, last: bool)
    requires Inv(s) && i < |s.workers| && s.workers[i].pc.Completing? && last == (s.completed + 1 >= |s.workers|)
    ensures Inv(Completed(s, i, true, last))
  {
    var t := Completed(s, i, true, last);
    SeenInTime(s, i);
    assert AllOk(ViewOf(t), t.workers) by {
      WorkersCounted(s, i);
      SameView(s, i, last);
    }
    assert SlotOk(t.slot, t.job, t.workers) by {
      SlotMoved(s.slot, s.job, s.workers, i, Counted(s.workers[i]));
    }
    assert CountOk(t.gen, t.completed, t.workers) by {
      CountOneMore(s, i);
    }
    FinishedCounted(s, i, last);
    assert PublisherOk(t) by {
      PublisherCounted(s, t, i, last);
    }
    ReturnedCounted(s, i, last);
  }

  lemma CheckKeeps(s: State, i: nat, pc: WorkerPc)
    requires Inv(s) && i < |s.workers| && s.workers[i].pc == pc && Checking(pc)
    ensures Inv(Checked(s, i, pc))
  {
    if pc.CheckStop? || pc.CheckQuit? {
      FlagKeeps(s, i, pc);
    } else if pc.CheckFound? {
      FoundKeeps(s, i);
    } else if pc.CheckPaused? {
      PausedKeeps(s, i);
    } else {
      JobFlagKeeps(s, i, pc);
    }
  }

  lemma ResultKeeps(s: State, i: nat, pc: WorkerPc)
    requires Inv(s) && i < |s.workers| && s.workers[i].pc == pc
    requires pc.Claiming? || pc.StoringNonce? || pc.StoringHash? || pc.Failed? || pc.Reporting?
    ensures Inv(Resulted(s, i, pc))
  {
    if pc.Claiming? {
      ClaimKeeps(s, i, pc.k);
    } else if pc.Failed? || pc.Reporting? {
      FailKeeps(s, i, pc);
    } else {
      StoreKeeps(s, i, pc);
    }
  }

  lemma SearchKeeps(s: State, i: nat, batch: nat)
    requires Inv(s) && i < |s.workers| && s.workers[i].pc.Searching?
    ensures Inv(SearchTurn(s, i, batch))
  {
    SeenInTime(s, i);
    Searches(s, i, batch, FirstHit(WorkerTask(s.job, i), s.workers[i].tried + batch));
  }

  lemma CompletingKeeps(s: State, i: nat, batch: nat)
    requires Inv(s) && i < |s.workers| && s.workers[i].pc.Completing?
    ensures Inv(WorkerTurn(s, i, batch))
  {
    SeenInTime(s, i);
    Completes(s, i, s.completed + 1 >= |s.workers|);
  }

  lemma WorkerKeeps(s: State, i: nat, batch: nat)
    requires Inv(s) && i < |s.workers| && batch > 0
    ensures Inv(WorkerTurn(s, i, batch))
  {
    var pc := s.workers[i].pc;
    if pc.Waiting? {
      Awaits(s, i);
    } else if pc.Looping? {
      Loops(s, i);
    } else if pc.Searching? {
      SearchKeeps(s, i, batch);
    } else if Checking(pc) {
      CheckKeeps(s, i, pc);
    } else if pc.Completing? {
      CompletingKeeps(s, i, batch);
    } else if !Idle(pc) {
      ResultKeeps(s, i, pc);
    }
  }

  // ---- The publisher moves ----

  predicate AboutToNotify(pc: PublisherPc) {
    pc.Notifying? || pc.ShutNotifyWork?
  }

  /** A step of the publisher that changes only where it is. */
  lemma PublisherGoes(s: State, pc: PublisherPc)
    requires Inv(s) && PublisherOk(s.(publisher := pc)) && FinishedOk(s.(publisher := pc))
    requires AfterShut(s.publisher) ==> AfterShut(pc)
    requires !s.publisher.Spawning? && !pc.Spawning? && !AboutToNotify(s.publisher) && !AboutToNotify(pc)
    ensures Inv(s.(publisher := pc))
  {
    var t := s.(publisher := pc);
    assert AllOk(ViewOf(t), t.workers) by {
      OkLater(ViewOf(s), ViewOf(t), s.workers);
    }
    assert ReturnedOk(t, t.returned);
  }

  lemma OutsideKeeps(s: State)
    requires Inv(s) && s.publisher.Outside?
    ensures Inv(s.(publisher := if s.signals.stop then ShutQuit else Ready))
  {
    PublisherGoes(s, if s.signals.stop then ShutQuit else Ready);
  }

  lemma ReadyKeeps(s: State)
    requires Inv(s) && s.publisher.Ready?
    ensures Inv(s.(publisher := Publishing))
  {
    PublisherGoes(s, Publishing);
  }

  /** A finished generation: everyone is done. */
  lemma FinishedMeans(s: State)
    requires Inv(s) && s.gen > 0 && !AfterShut(s.publisher) && s.finished
    ensures AllDone(s.workers, s.gen)
  {
    CountAll(s.workers, s.gen);
  }

  lemma TestedOk(s: State)
    requires Inv(s) && s.publisher.Testing?
    ensures PublisherOk(s.(publisher := Tested(s)))
  {
    if s.finished {
      FinishedMeans(s);
    }
  }

  lemma TestingKeeps(s: State)
    requires Inv(s) && s.publisher.Testing?
    ensures Inv(s.(publisher := Tested(s)))
  {
    TestedOk(s);
    PublisherGoes(s, Tested(s));
  }

  /** When everyone is done and nothing was found, everyone was told to leave. */
  lemma NothingFound(s: State)
    requires Inv(s) && AllDone(s.workers, s.gen) && s.gen > 0 && !s.slot.found
    ensures AllLeft(s.workers, s.gen)
  {
    forall i: nat | i < |s.workers|
      ensures Done(s.workers[i], s.gen) && s.workers[i].left.Some?
    {
      Known(s, i);
    }
  }

  lemma ReadFoundKeeps(s: State)
    requires Inv(s) && s.publisher.ReadFound?
    ensures Inv(s.(publisher := if s.slot.found then ReadNonce else Clearing(NoHit)))
  {
    if !s.slot.found {
      NothingFound(s);
    }
    PublisherGoes(s, if s.slot.found then ReadNonce else Clearing(NoHit));
  }

  lemma ReadNonceKeeps(s: State)
    requires Inv(s) && s.publisher.ReadNonce?
    ensures Inv(s.(publisher := ReadHash(s.slot.nonce)))
  {
    PublisherGoes(s, ReadHash(s.slot.nonce));
  }

  /** When everyone is done and nobody has failed, what is found is written. */
  lemma WrittenOut(s: State)
    requires Inv(s) && AllDone(s.workers, s.gen) && s.slot.found && s.slot.error.None?
    ensures s.slot.winner.Some?
    ensures Found(s.slot.nonce, s.slot.hash)
         == FoundAt(WorkerTask(s.job, s.slot.winner.value.0), s.slot.winner.value.1)
  {
    var winner, reporter := s.slot.winner, s.slot.reporter;
    assert winner.Some? && winner.value.0 < |s.workers| ==> Done(s.workers[winner.value.0], s.gen);
    assert reporter.Some? && reporter.value < |s.workers| ==> Done(s.workers[reporter.value], s.gen);
  }

  lemma ReadHashKeeps(s: State, nonce: u64)
    requires Inv(s) && s.publisher == ReadHash(nonce)
    ensures Inv(s.(publisher := Clearing(Solved(Found(nonce, s.slot.hash)))))
  {
    WrittenOut(s);
    PublisherGoes(s, Clearing(Solved(Found(nonce, s.slot.hash))));
  }

  lemma ClearingKeeps(s: State, r: Returned)
    requires Inv(s) && s.publisher == Clearing(r)
    ensures Inv(s.(returned := r, publisher := AfterClearing(r)))
  {
    PublisherGoes(s, AfterClearing(r));
    var t := s.(publisher := AfterClearing(r));
    assert ReturnedOk(t, r);
    assert ViewOf(t.(returned := r)) == ViewOf(t);
  }

  lemma ResetQuitKeeps(s: State)
    requires Inv(s) && s.publisher.ResetQuit?
    ensures Inv(s.(signals := s.signals.(quit := false), publisher := ResetFound))
  {
    var t := s.(signals := s.signals.(quit := false), publisher := ResetFound);
    OkLater(ViewOf(s), ViewOf(t), s.workers);
    assert ReturnedOk(t, t.returned);
  }

  lemma ResetFoundKeeps(s: State)
    requires Inv(s) && s.publisher.ResetFound?
    ensures Inv(s.(slot := s.slot.(found := false), publisher := ResetShared))
  {
    PublisherGoes(s, ResetShared);
  }

  lemma ResetSharedKeeps(s: State)
    requires Inv(s) && s.publisher.ResetShared?
    ensures Inv(ResetAll(s))
  {
    var t := ResetAll(s);
    assert t.slot == s.slot;
    OkLater(ViewOf(s), ViewOf(t), s.workers);
    assert ReturnedOk(t, t.returned);
  }

  lemma SpawnOk(v: View, ws: seq<Worker>, next: nat)
    requires next < |ws| && AllOk(v, ws) && v.spawned == next && v.gen == 0
    ensures AllOk(v.(spawned := next + 1), ws[next := ws[next].(pc := Waiting)])
  {
    var after := ws[next := ws[next].(pc := Waiting)];
    forall i: nat | i < |after|
      ensures WorkerOk(v.(spawned := next + 1), i, after[i])
    {
      assert WorkerOk(v, i, ws[i]);
    }
  }

  lemma SpawnMoves(s: State, next: nat)
    requires Inv(s) && s.publisher == Spawning(next) && next < |s.workers|
    ensures MayMove(s.workers[next], s.workers[next].(pc := Waiting), s.gen) && s.gen == 0
    ensures s.workers[next].pc.NotStarted?
  {
    Known(s, next);
  }

  lemma SpawnKeeps(s: State, next: nat)
    requires Inv(s) && s.publisher == Spawning(next) && next < |s.workers|
    ensures Inv(Goto(s, next, Waiting).(publisher := Spawning(next + 1)))
  {
    var w := s.workers[next].(pc := Waiting);
    var t := SetWorker(s, next, w).(publisher := Spawning(next + 1));
    SpawnMoves(s, next);
    assert AllOk(ViewOf(t), t.workers) by {
      SpawnOk(ViewOf(s), s.workers, next);
    }
    assert SlotOk(t.slot, t.job, t.workers) by {
      SlotMoved(s.slot, s.job, s.workers, next, w);
    }
    assert PublisherOk(t) by {
      AllMoved(s.workers, s.gen, next, w, 0);
    }
    assert ReturnedOk(t, t.returned) by {
      ReturnedMoved(s, next, w, s.returned);
    }
  }

  lemma AllSpawnedOk(v: View, ws: seq<Worker>, n: nat)
    requires AllOk(v, ws) && v.spawned >= |ws| && n == |ws|
    ensures AllOk(v.(spawned := n), ws)
  {
    forall i: nat | i < |ws|
      ensures WorkerOk(v.(spawned := n), i, ws[i])
    {
      assert WorkerOk(v, i, ws[i]);
    }
  }

  lemma SpawnedKeeps(s: State, next: nat)
    requires Inv(s) && s.publisher == Spawning(next)
    ensures Inv(Spawned(s, next))
  {
    if next < |s.workers| {
      SpawnKeeps(s, next);
    } else {
      var t := s.(publisher := Outside);
      AllSpawnedOk(ViewOf(s), s.workers, |s.workers|);
      assert ViewOf(t) == ViewOf(s).(spawned := |s.workers|);
      assert ReturnedOk(t, t.returned);
    }
  }

  lemma PublishedOk(v: View, u: View, ws: seq<Worker>)
    requires AllOk(v, ws) && AllDone(ws, v.gen)
    requires u.gen == v.gen + 1 && u.waking && u.workStop == v.workStop && u.spawned == v.spawned
    requires v.stopping ==> u.stopping
    requires v.spawned >= |ws|
    ensures AllOk(u, ws)
  {
    forall i: nat | i < |ws|
      ensures WorkerOk(u, i, ws[i])
    {
      assert WorkerOk(v, i, ws[i]);
      assert Done(ws[i], v.gen);
    }
  }

  lemma PublishKeeps(s: State, job: Task)
    requires Inv(s) && s.publisher.Publishing? && job.step == |s.workers|
    ensures Inv(Publish(s, job))
  {
    var t := Publish(s, job);
    assert AllOk(ViewOf(t), t.workers) by {
      PublishedOk(ViewOf(s), ViewOf(t), s.workers);
    }
    assert CountOk(t.gen, t.completed, t.workers) by {
      CountNone(t.workers, t.gen);
    }
  }

  lemma WokenDone(ws: seq<Worker>, gen: nat)
    ensures CountDone(WakeWorkers(ws), gen) == CountDone(ws, gen)
    ensures AllDone(ws, gen) ==> AllDone(WakeWorkers(ws), gen)
    ensures AllLeft(ws, gen) ==> AllLeft(WakeWorkers(ws), gen)
  {
    CountSame(ws, WakeWorkers(ws), gen);
  }

  lemma WokenSlot(slot: Slot, job: Task, gen: nat, ws: seq<Worker>)
    requires SlotOk(slot, job, ws) && ErrorOk(slot, gen, ws)
    ensures SlotOk(slot, job, WakeWorkers(ws)) && ErrorOk(slot, gen, WakeWorkers(ws))
  {
  }

  lemma WokenReturned(s: State, t: State, r: Returned)
    requires t == s.(workers := WakeWorkers(s.workers), publisher := t.publisher, stoppers := t.stoppers)
    requires ReturnedOk(s, r)
    ensures ReturnedOk(t, r)
  {
    WokenDone(s.workers, s.gen);
  }

  /** All sleeping workers are woken. */
  lemma WakingKeeps(s: State, t: State)
    requires Inv(s)
    requires t == s.(workers := WakeWorkers(s.workers), publisher := t.publisher, stoppers := t.stoppers)
    requires PublisherOk(t) && FinishedOk(t) && (StopPending(t.stoppers) ==> s.signals.stop)
    requires SpawnedOf(t) == SpawnedOf(s) && Stopping(t) == Stopping(s)
    ensures Inv(t)
  {
    assert AllOk(ViewOf(t), t.workers) by {
      OkWoken(ViewOf(s), ViewOf(t), s.workers);
    }
    WokenDone(s.workers, s.gen);
    WokenSlot(s.slot, s.job, s.gen, s.workers);
    WokenReturned(s, t, s.returned);
  }

  lemma NotifyingKeeps(s: State)
    requires Inv(s) && s.publisher.Notifying?
    ensures Inv(s.(workers := WakeWorkers(s.workers), publisher := Testing))
  {
    WakingKeeps(s, s.(workers := WakeWorkers(s.workers), publisher := Testing));
  }

  lemma ShutNotifyKeeps(s: State)
    requires Inv(s) && s.publisher.ShutNotifyWork?
    ensures Inv(s.(workers := WakeWorkers(s.workers), publisher := ShutNotifyDone))
  {
    WokenDone(s.workers, s.gen);
    WakingKeeps(s, s.(workers := WakeWorkers(s.workers), publisher := ShutNotifyDone));
  }

  lemma ShutQuitKeeps(s: State)
    requires Inv(s) && s.publisher.ShutQuit?
    ensures Inv(s.(signals := s.signals.(quit := true), publisher := ShutShared))
  {
    var t := s.(signals := s.signals.(quit := true), publisher := ShutShared);
    OkLater(ViewOf(s), ViewOf(t), s.workers);
    assert ReturnedOk(t, t.returned);
  }

  lemma ShutSharedKeeps(s: State)
    requires Inv(s) && s.publisher.ShutShared?
    ensures Inv(s.(workStop := true, finished := true, publisher := ShutNotifyWork))
  {
    var t := s.(workStop := true, finished := true, publisher := ShutNotifyWork);
    OkLater(ViewOf(s), ViewOf(t), s.workers);
    assert ReturnedOk(t, t.returned);
  }

  lemma JoiningStarts(s: State)
    requires Inv(s) && s.publisher.ShutNotifyDone?
    ensures Inv(s.(publisher := Joining(0)))
  {
    PublisherGoes(s, Joining(0));
  }

  lemma JoiningKeeps(s: State, next: nat)
    requires Inv(s) && s.publisher == Joining(next)
    ensures Inv(s.(publisher := Joined(s, next)))
  {
    PublisherGoes(s, Joined(s, next));
  }

  lemma ReadKeeps(s: State, job: Task)
    requires Inv(s) && Reads(s.publisher)
    ensures Inv(PublisherTurn(s, job))
  {
    if s.publisher.ReadFound? {
      ReadFoundKeeps(s);
    } else if s.publisher.ReadNonce? {
      ReadNonceKeeps(s);
    } else {
      ReadHashKeeps(s, s.publisher.nonce);
    }
  }

  lemma StartKeeps(s: State, job: Task)
    requires Inv(s) && Starting(s.publisher)
    ensures Inv(PublisherTurn(s, job))
  {
    if s.publisher.ResetQuit? {
      ResetQuitKeeps(s);
    } else if s.publisher.ResetFound? {
      ResetFoundKeeps(s);
    } else if s.publisher.ResetShared? {
      ResetSharedKeeps(s);
    } else {
      SpawnedKeeps(s, s.publisher.next);
    }
  }

  lemma ShutKeeps(s: State, job: Task)
    requires Inv(s) && (s.publisher.ShutQuit? || s.publisher.ShutShared? || s.publisher.ShutNotifyWork?)
    ensures Inv(PublisherTurn(s, job))
  {
    if s.publisher.ShutQuit? {
      ShutQuitKeeps(s);
    } else if s.publisher.ShutShared? {
      ShutSharedKeeps(s);
    } else {
      ShutNotifyKeeps(s);
    }
  }

  lemma JoinKeeps(s: State, job: Task)
    requires Inv(s) && (s.publisher.ShutNotifyDone? || s.publisher.Joining? || s.publisher.Gone?)
    ensures Inv(PublisherTurn(s, job))
  {
    if s.publisher.ShutNotifyDone? {
      JoiningStarts(s);
    } else if s.publisher.Joining? {
      JoiningKeeps(s, s.publisher.next);
    }
  }

  lemma OutKeeps(s: State, job: Task)
    requires Inv(s) && (s.publisher.Outside? || s.publisher.Ready? || s.publisher.Clearing?)
    ensures Inv(PublisherTurn(s, job))
  {
    if s.publisher.Outside? {
      OutsideKeeps(s);
    } else if s.publisher.Ready? {
      ReadyKeeps(s);
    } else {
      ClearingKeeps(s, s.publisher.returned);
    }
  }

  lemma CallKeeps(s: State, job: Task)
    requires Inv(s) && Waits(s.publisher)
    ensures Inv(PublisherTurn(s, job))
  {
    if s.publisher.Notifying? {
      NotifyingKeeps(s);
    } else if s.publisher.Testing? {
      TestingKeeps(s);
    }
  }

  lemma PublisherKeeps(s: State, job: Task)
    requires Inv(s) && job.step == |s.workers|
    ensures Inv(PublisherTurn(s, job))
  {
    var pc := s.publisher;
    if pc.ShutQuit? || pc.ShutShared? || pc.ShutNotifyWork? {
      ShutKeeps(s, job);
    } else if AfterShut(pc) {
      JoinKeeps(s, job);
    } else if Starting(pc) {
      StartKeeps(s, job);
    } else if Reads(pc) {
      ReadKeeps(s, job);
    } else if Waits(pc) {
      CallKeeps(s, job);
    } else if pc.Publishing? {
      PublishKeeps(s, job);
    } else {
      OutKeeps(s, job);
    }
  }

  // ---- A stopper moves ----

  lemma StillIn(pcs: seq<StopperPc>, i: nat, pc: StopperPc)
    requires i < |pcs|
    ensures pc in pcs[i := pc]
    ensures forall other :: other in pcs && other != pcs[i] ==> other in pcs[i := pc]
    ensures forall other :: other in pcs[i := pc] && other != pc ==> other in pcs
  {
    assert pcs[i := pc][i] == pc;
    forall other | other in pcs && other != pcs[i]
      ensures other in pcs[i := pc]
    {
      var j :| 0 <= j < |pcs| && pcs[j] == other;
      assert pcs[i := pc][j] == other;
    }
  }

  lemma StopRequested(s: State, i: nat)
    requires Inv(s) && i < |s.stoppers| && !s.stoppers[i].Resting?
    ensures s.signals.stop
  {
    assert s.stoppers[i] in s.stoppers;
  }

  lemma StopReturned(s: State, t: State, r: Returned)
    requires t == s.(signals := t.signals, workStop := t.workStop, publisher := t.publisher, stoppers := t.stoppers)
    requires ReturnedOk(s, r) && (s.signals.stop ==> t.signals.stop)
    ensures ReturnedOk(t, r)
  {
  }

  lemma StopPublisher(s: State, t: State)
    requires t == s.(signals := t.signals, workStop := t.workStop, publisher := t.publisher, stoppers := t.stoppers)
    requires PublisherOk(s) && t.signals.stop && (s.workStop ==> t.workStop)
    requires t.publisher == s.publisher || t.publisher == Woken(s.publisher)
    requires t.publisher.Sleeping? ==> StopPending(t.stoppers)
    ensures PublisherOk(t)
  {
    if s.publisher.Clearing? {
      StopReturned(s, t, s.publisher.returned);
    }
  }

  /** A step of a stopper that wakes no worker. */
  lemma StopperGoes(s: State, t: State)
    requires Inv(s) && t.signals.stop
    requires t == s.(signals := t.signals, workStop := t.workStop, publisher := t.publisher, stoppers := t.stoppers)
    requires t.signals == s.signals.(stop := true, quit := t.signals.quit) && (s.signals.quit ==> t.signals.quit)
    requires WorkersWillWake(s) || t.workStop != s.workStop ==> WorkersWillWake(t)
    requires s.workStop ==> t.workStop
    requires t.publisher == s.publisher || t.publisher == Woken(s.publisher)
    requires t.publisher.Sleeping? ==> StopPending(t.stoppers)
    ensures Inv(t)
  {
    assert AllOk(ViewOf(t), t.workers) by {
      OkLater(ViewOf(s), ViewOf(t), s.workers);
    }
    StopPublisher(s, t);
    StopReturned(s, t, s.returned);
  }

  lemma Requests(s: State, i: nat)
    requires Inv(s) && i < |s.stoppers| && s.stoppers[i].Resting?
    ensures Inv(s.(signals := s.signals.(stop := true), stoppers := s.stoppers[i := SetQuit]))
  {
    StillIn(s.stoppers, i, SetQuit);
    StopperGoes(s, s.(signals := s.signals.(stop := true), stoppers := s.stoppers[i := SetQuit]));
  }

  lemma Quits(s: State, i: nat)
    requires Inv(s) && i < |s.stoppers| && s.stoppers[i].SetQuit?
    ensures Inv(s.(signals := s.signals.(quit := true), stoppers := s.stoppers[i := SetWorkStop]))
  {
    StopRequested(s, i);
    StillIn(s.stoppers, i, SetWorkStop);
    StopperGoes(s, s.(signals := s.signals.(quit := true), stoppers := s.stoppers[i := SetWorkStop]));
  }

  lemma StopsWork(s: State, i: nat)
    requires Inv(s) && i < |s.stoppers| && s.stoppers[i].SetWorkStop?
    ensures Inv(s.(workStop := true, stoppers := s.stoppers[i := NotifyWork]))
  {
    StopRequested(s, i);
    StillIn(s.stoppers, i, NotifyWork);
    StopperGoes(s, s.(workStop := true, stoppers := s.stoppers[i := NotifyWork]));
  }

  lemma WokenPublisher(s: State, t: State)
    requires t == s.(workers := WakeWorkers(s.workers), stoppers := t.stoppers)
    requires PublisherOk(s) && StopPending(t.stoppers)
    ensures PublisherOk(t)
  {
    WokenDone(s.workers, s.gen);
    if s.publisher.Clearing? {
      WokenReturned(s, t, s.publisher.returned);
    }
  }

  lemma NotifiesWorkers(s: State, i: nat)
    requires Inv(s) && i < |s.stoppers| && s.stoppers[i].NotifyWork?
    ensures Inv(s.(workers := WakeWorkers(s.workers), stoppers := s.stoppers[i := NotifyDone]))
  {
    var t := s.(workers := WakeWorkers(s.workers), stoppers := s.stoppers[i := NotifyDone]);
    StopRequested(s, i);
    StillIn(s.stoppers, i, NotifyDone);
    WokenPublisher(s, t);
    WakingKeeps(s, t);
  }

  lemma Rests(s: State, i: nat)
    requires Inv(s) && i < |s.stoppers| && s.stoppers[i].NotifyDone?
    ensures Inv(s.(publisher := Woken(s.publisher), stoppers := s.stoppers[i := Resting]))
  {
    StopRequested(s, i);
    StillIn(s.stoppers, i, Resting);
    StopperGoes(s, s.(publisher := Woken(s.publisher), stoppers := s.stoppers[i := Resting]));
  }

  lemma StopperKeeps(s: State, i: nat)
    requires Inv(s) && i < |s.stoppers|
    ensures Inv(StopperTurn(s, i))
  {
    match s.stoppers[i]
    case Resting => Requests(s, i);
    case SetQuit => Quits(s, i);
    case SetWorkStop => StopsWork(s, i);
    case NotifyWork => NotifiesWorkers(s, i);
    case NotifyDone => Rests(s, i);
  }

  // ---- Every run ----

  lemma GivesUp(s: State)
    requires Inv(s) && (s.publisher.Outside? || s.publisher.Ready?)
    ensures Inv(s.(publisher := ShutQuit))
  {
    PublisherGoes(s, ShutQuit);
  }

  lemma PublisherWakes(s: State)
    requires Inv(s) && s.publisher.Sleeping?
    ensures Inv(s.(publisher := Testing))
  {
    PublisherGoes(s, Testing);
  }

  lemma FlagsKeep(s: State, signals: Signals)
    requires Inv(s) && signals.stop == s.signals.stop && signals.quit == s.signals.quit
    requires signals.cancelSeen == (s.signals.cancelSeen || signals.cancel)
    requires signals.versionSeen == (s.signals.versionSeen || signals.newVersion)
    ensures Inv(s.(signals := signals))
  {
    var t := s.(signals := signals);
    OkLater(ViewOf(s), ViewOf(t), s.workers);
    StopReturned(s, t, s.returned);
    if s.publisher.Clearing? {
      StopReturned(s, t, s.publisher.returned);
    }
  }

  lemma NextKeeps(s: State, e: Event)
    requires Inv(s) && Enabled(s, e)
    ensures Inv(Next(s, e))
  {
    match e
    case Work(i, batch) => WorkerKeeps(s, i, batch);
    case Throw(i) => Throws(s, i);
    case Wake(i) => Wakes(s, i);
    case Advance(job) => PublisherKeeps(s, job);
    case GiveUp => GivesUp(s);
    case WakePublisher => PublisherWakes(s);
    case RequestStop(i) => StopperKeeps(s, i);
    case Flags(cancel, newVersion, paused) => FlagsKeep(s, Next(s, e).signals);
  }

  lemma {:induction false} RunKeeps(states: seq<State>, events: seq<Event>, n: nat)
    requires Run(states, events) && n <= |events|
    ensures Inv(states[n])
  {
    if n == 0 {
      InitialInv(states[0]);
    } else {
      RunKeeps(states, events, n - 1);
      assert LeadsTo(states[n - 1], events[n - 1], states[n]);
      NextKeeps(states[n - 1], events[n - 1]);
    }
  }

  lemma ReachableInv(s: State)
    requires Reachable(s)
    ensures Inv(s)
  {
    var states, events :| Run(states, events) && states[|events|] == s;
    RunKeeps(states, events, |events|);
  }
}
