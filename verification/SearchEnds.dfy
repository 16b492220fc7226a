/** A raised flag ends a search: after so many steps of its own, a worker has left and counted itself. */
module SearchEnds {
  import opened Machine
  import opened Hits
  import opened WorkerPool
  import opened WorkerPoolSafety
  import opened MiningResult
  import opened StopLooks

  /** The flags that a worker looks at, in the order in which it does; `None` is the one that says a hit was found. */
  type Flag = Option<Cause>

  predicate Raised(s: State, f: Flag) {
    match f
    case Some(StopFlag) => s.signals.stop
    case Some(QuitFlag) => s.signals.quit
    case None => s.slot.found
    case Some(CancelFlag) => s.signals.cancel
    case Some(VersionFlag) => s.signals.newVersion
  }

  function PlaceOf(f: Flag): nat {
    match f
    case Some(StopFlag) => 0
    case Some(QuitFlag) => 1
    case None => 2
    case Some(CancelFlag) => 3
    case Some(VersionFlag) => 4
  }

  /** How many looks come before this one. */
  function LookAt(pc: WorkerPc): nat {
    if pc.CheckStop? then 0
    else if pc.CheckQuit? then 1
    else if pc.CheckFound? then 2
    else if pc.CheckCancel? then 3
    else if pc.CheckVersion? then 4
    else 5
  }

  /** How often the loop searches before the next look at the flags. */
  function UntilLook(counter: nat): nat {
    if counter + 1 < CONTROL_CHECK_INTERVAL then CONTROL_CHECK_INTERVAL - 1 - counter else 0
  }

  // ---- Steps in which nonces are tried ----

  predicate SearchesAt(s: State, e: Event, i: nat) {
    e.Work? && e.i == i && i < |s.workers| && s.workers[i].pc.Searching?
  }

  function SearchSteps(states: seq<State>, events: seq<Event>, i: nat): nat
    requires |states| == |events| + 1
  {
    if events == [] then 0
    else
      var n := |events| - 1;
      SearchSteps(states[..n + 1], events[..n], i) + if SearchesAt(states[n], events[n], i) then 1 else 0
  }

  /** How many such steps are left while the flag is up. */
  function SearchesLeft(w: Worker, f: Flag): nat {
    if w.pc.Looping? then UntilLook(w.counter)
    else if w.pc.Searching? then 1 + UntilLook(w.counter)
    else if Checking(w.pc) && LookAt(w.pc) > PlaceOf(f) then CONTROL_CHECK_INTERVAL
    else 0
  }

  // ---- All steps ----

  /** How many steps of its own are left at most until the worker has counted itself. */
  function StepsLeft(w: Worker, f: Flag): nat {
    if Idle(w.pc) then 0
    else if w.pc.Completing? then 1
    else if w.pc.Reporting? then 2
    else if w.pc.Failed? then 3
    else if w.pc.StoringHash? then 4
    else if w.pc.StoringNonce? then 5
    else if w.pc.Claiming? then 6
    else if w.pc.Looping? then LoopSteps(w.counter, f)
    else if w.pc.Searching? then 1 + LoopSteps(w.counter, f)
    else if LookAt(w.pc) <= PlaceOf(f) then 7 + PlaceOf(f) - LookAt(w.pc)
    else 7 - LookAt(w.pc) + LoopSteps(0, f)
  }

  function LoopSteps(counter: nat, f: Flag): nat {
    2 * UntilLook(counter) + 8 + PlaceOf(f)
  }

  /** The searches and the steps left before and after a step of the worker. */
  predicate Nearer(before: Worker, after: Worker, f: Flag) {
    && SearchesLeft(after, f) + (if before.pc.Searching? then 1 else 0) <= SearchesLeft(before, f)
    && StepsLeft(after, f) < StepsLeft(before, f)
  }

  /** A look that lets the worker go on, unless it is the one at the raised flag. */
  lemma PassedNearer(w: Worker, next: WorkerPc, f: Flag)
    requires Checking(w.pc) && LookAt(w.pc) != PlaceOf(f)
    requires if LookAt(w.pc) < 5 then Checking(next) && LookAt(next) == LookAt(w.pc) + 1
             else next == Looping || next == Searching
    ensures Nearer(w, w.(pc := next), f)
  {
  }

  lemma LeftNearer(w: Worker, left: Option<Cause>, f: Flag)
    requires Checking(w.pc)
    ensures Nearer(w, w.(pc := Completing, left := left), f)
  {
  }

  lemma LookNearer(s: State, i: nat, flag: bool, cause: Cause, next: WorkerPc, f: Flag)
    requires i < |s.workers| && Checking(s.workers[i].pc) && Checking(next)
    requires LookAt(s.workers[i].pc) < 5 && LookAt(next) == LookAt(s.workers[i].pc) + 1
    requires LookAt(s.workers[i].pc) == PlaceOf(f) ==> flag
    ensures Nearer(s.workers[i], Look(s, i, flag, cause, next).workers[i], f)
  {
    if flag {
      LeftNearer(s.workers[i], Some(cause), f);
    } else {
      PassedNearer(s.workers[i], next, f);
    }
  }

  lemma FoundNearer(s: State, i: nat, f: Flag)
    requires i < |s.workers| && s.workers[i].pc.CheckFound? && Raised(s, f)
    ensures Nearer(s.workers[i], Checked(s, i, CheckFound).workers[i], f)
  {
    var w := s.workers[i];
    if s.slot.found {
      LeftNearer(w, w.left, f);
    } else {
      PassedNearer(w, CheckCancel, f);
    }
  }

  lemma PausedNearer(s: State, i: nat, f: Flag)
    requires i < |s.workers| && s.workers[i].pc.CheckPaused?
    ensures Nearer(s.workers[i], Checked(s, i, CheckPaused).workers[i], f)
  {
    PassedNearer(s.workers[i], if s.signals.paused then Looping else Searching, f);
  }

  lemma CheckedNearer(s: State, i: nat, f: Flag)
    requires i < |s.workers| && Checking(s.workers[i].pc) && Raised(s, f)
    ensures Nearer(s.workers[i], Checked(s, i, s.workers[i].pc).workers[i], f)
  {
    match s.workers[i].pc
    case CheckStop => LookNearer(s, i, s.signals.stop, StopFlag, CheckQuit, f);
    case CheckQuit => LookNearer(s, i, s.signals.quit, QuitFlag, CheckFound, f);
    case CheckFound => FoundNearer(s, i, f);
    case CheckCancel => LookNearer(s, i, s.signals.cancel, CancelFlag, CheckVersion, f);
    case CheckVersion => LookNearer(s, i, s.signals.newVersion, VersionFlag, CheckPaused, f);
    case CheckPaused => PausedNearer(s, i, f);
  }

  lemma LoopedNearer(w: Worker, f: Flag)
    requires w.pc.Looping?
    ensures Nearer(w, Looped(w), f)
  {
  }

  lemma SearchedNearer(w: Worker, batch: nat, hit: Option<nat>, f: Flag)
    requires w.pc.Searching?
    ensures Nearer(w, Searched(w, batch, hit), f)
  {
  }

  lemma ResultNearer(w: Worker, next: WorkerPc, f: Flag)
    requires w.pc.Claiming? ==> next.StoringNonce? || next.Completing?
    requires w.pc.StoringNonce? ==> next.StoringHash?
    requires w.pc.StoringHash? || w.pc.Reporting? ==> next.Completing?
    requires w.pc.Failed? ==> next.Reporting?
    requires w.pc.Claiming? || w.pc.StoringNonce? || w.pc.StoringHash? || w.pc.Failed? || w.pc.Reporting?
    ensures Nearer(w, w.(pc := next), f)
  {
  }

  lemma ResultedNearer(s: State, i: nat, f: Flag)
    requires i < |s.workers|
    requires var pc := s.workers[i].pc;
             pc.Claiming? || pc.StoringNonce? || pc.StoringHash? || pc.Failed? || pc.Reporting?
    ensures Nearer(s.workers[i], Resulted(s, i, s.workers[i].pc).workers[i], f)
  {
    var w := s.workers[i];
    match w.pc
    case Claiming(k) => ResultNearer(w, if s.slot.found then Completing else StoringNonce(k), f);
    case StoringNonce(k) => ResultNearer(w, StoringHash(k), f);
    case StoringHash(_) => ResultNearer(w, Completing, f);
    case Failed => ResultNearer(w, Reporting, f);
    case Reporting => ResultNearer(w, Completing, f);
  }

  lemma CompletedNearer(s: State, i: nat, current: bool, last: bool, f: Flag)
    requires i < |s.workers| && s.workers[i].pc.Completing?
    ensures Nearer(s.workers[i], Completed(s, i, current, last).workers[i], f)
  {
  }

  /** Every step of a worker at work brings it nearer to its end. */
  lemma TurnNearer(s: State, i: nat, batch: nat, f: Flag)
    requires i < |s.workers| && !Idle(s.workers[i].pc) && Raised(s, f)
    ensures Nearer(s.workers[i], WorkerTurn(s, i, batch).workers[i], f)
  {
    var w := s.workers[i];
    if w.pc.Looping? {
      LoopedNearer(w, f);
    } else if w.pc.Searching? {
      SearchedNearer(w, batch, FirstHit(WorkerTask(w.job, i), w.tried + batch), f);
    } else if Checking(w.pc) {
      CheckedNearer(s, i, f);
    } else if w.pc.Completing? {
      CompletedNearer(s, i, w.observed == s.gen, s.completed + 1 >= |s.workers|, f);
    } else {
      ResultedNearer(s, i, f);
    }
  }

  // ---- Every run ----

  lemma ThrowNearer(w: Worker, f: Flag)
    requires Trying(w.pc)
    ensures StepsLeft(w.(pc := Failed, failed := true), f) <= StepsLeft(w, f)
    ensures SearchesLeft(w.(pc := Failed, failed := true), f) == 0
  {
  }

  /** What the worker does, if the step is its own. */
  predicate OwnStep(e: Event, i: nat) {
    e.Work? && e.i == i
  }

  function OwnSteps(events: seq<Event>, i: nat): nat {
    if events == [] then 0
    else OwnSteps(events[..|events| - 1], i) + if OwnStep(events[|events| - 1], i) then 1 else 0
  }

  /** No step takes the worker away from its end, and its own bring it nearer. */
  lemma StepNearer(s: State, e: Event, i: nat, f: Flag)
    requires Enabled(s, e) && i < |s.workers| && Raised(s, f) && !Idle(s.workers[i].pc)
    ensures var t := Next(s, e);
            && |t.workers| == |s.workers|
            && StepsLeft(t.workers[i], f) + (if OwnStep(e, i) then 1 else 0) <= StepsLeft(s.workers[i], f)
            && SearchesLeft(t.workers[i], f) + (if SearchesAt(s, e, i) then 1 else 0)
               <= SearchesLeft(s.workers[i], f)
  {
    match e
    case Work(j, batch) =>
      TurnOnly(s, j, batch);
      if j == i {
        TurnNearer(s, i, batch, f);
      }
    case Advance(job) => PublisherRouses(s, job);
    case Throw(j) =>
      ThrowMoves(s, j);
      if j == i {
        ThrowNearer(s.workers[i], f);
      }
    case _ => OtherEvents(s, e);
  }

  /** The flag is up, and the worker at work, before every step. */
  ghost predicate StaysUp(states: seq<State>, events: seq<Event>, i: nat, f: Flag) {
    && Schedule(states, events)
    && forall n :: 0 <= n < |events| ==>
         i < |states[n].workers| && Raised(states[n], f) && !Idle(states[n].workers[i].pc)
  }

  lemma {:induction false} EachStepCounts(states: seq<State>, events: seq<Event>, i: nat, f: Flag)
    requires StaysUp(states, events, i, f) && i < |states[0].workers|
    ensures var last := states[|events|];
            && |last.workers| == |states[0].workers|
            && OwnSteps(events, i) + StepsLeft(last.workers[i], f) <= StepsLeft(states[0].workers[i], f)
            && SearchSteps(states, events, i) + SearchesLeft(last.workers[i], f)
               <= SearchesLeft(states[0].workers[i], f)
    decreases |events|
  {
    if events != [] {
      var n := |events| - 1;
      var front := states[..n + 1];
      assert Schedule(front, events[..n]) by {
        forall m | 0 <= m < n
          ensures LeadsTo(front[m], events[..n][m], front[m + 1])
        {
          assert LeadsTo(states[m], events[m], states[m + 1]);
        }
      }
      assert forall m :: 0 <= m < n ==> front[m] == states[m];
      EachStepCounts(front, events[..n], i, f);
      assert LeadsTo(states[n], events[n], states[n + 1]);
      StepNearer(states[n], events[n], i, f);
    }
  }

  lemma Bounds(w: Worker, f: Flag)
    ensures SearchesLeft(w, f) <= CONTROL_CHECK_INTERVAL && StepsLeft(w, f) <= 44
    ensures w.pc.CheckStop? ==> SearchesLeft(w, f) == 0
  {
  }

  /** While a flag is up, whatever else happens, a worker tries nonces in at most sixteen more steps, in none once it is
      at the start of a look, and is idle again after at most 44 steps of its own. */
  lemma EndsInTime(states: seq<State>, events: seq<Event>, i: nat, f: Flag)
    requires StaysUp(states, events, i, f) && i < |states[0].workers|
    ensures SearchSteps(states, events, i) <= CONTROL_CHECK_INTERVAL
    ensures states[0].workers[i].pc.CheckStop? ==> SearchSteps(states, events, i) == 0
    ensures OwnSteps(events, i) <= 44
    ensures OwnSteps(events, i) == 44 ==> i < |states[|events|].workers| && Idle(states[|events|].workers[i].pc)
  {
    EachStepCounts(states, events, i, f);
    Bounds(states[0].workers[i], f);
    NotIdleYet(states[|events|].workers[i], f);
  }

  lemma NotIdleYet(w: Worker, f: Flag)
    ensures StepsLeft(w, f) == 0 ==> Idle(w.pc)
  {
  }

  /** A worker about to count itself names the flag it left for, which was up in this generation, or a hit was found, or
      an exception flagged. */
  lemma LeftForCause(s: State, i: nat)
    requires Reachable(s) && i < |s.workers| && s.workers[i].pc.Completing?
    ensures s.slot.found || (s.workers[i].left.Some? && CauseOk(s.signals, s.workers[i].left.value))
  {
    ReachableInv(s);
    Known(s, i);
  }
}
