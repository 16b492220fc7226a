/** What holds in every reachable state of the worker pool, and so of every result of `mine_block`. */
module MiningResult {
  import opened Machine
  import opened Target
  import opened Hits
  import opened Chain
  import opened PowBuffer
  import Search
  import opened WorkerPool
  import opened WorkerPoolSafety

  /** Result soundness: what `mine_block` returns as found is a hash of the current job's candidate with the returned
      nonce, meets the job's target, and is the first hit of some worker's progression. */
  lemma FoundIsSound(s: State) returns (i: nat, k: nat)
    requires Reachable(s) && s.returned.Solved?
    ensures i < |s.workers| && s.returned.found == FoundAt(WorkerTask(s.job, i), k)
    ensures s.returned.found.hash == s.job.hashOf(s.returned.found.nonce)
    ensures Meets(s.returned.found.hash, s.job.target)
    ensures forall j :: 0 <= j < k ==> !Hit(WorkerTask(s.job, i), j)
  {
    ReachableInv(s);
    i, k := s.slot.winner.value.0, s.slot.winner.value.1;
    assert FirstAt(WorkerTask(s.job, i), k);
    assert Hit(WorkerTask(s.job, i), k);
  }

  /** The block that is then submitted really has the hash it carries, when its template is patchable and the nonce did
      not wrap below 2^32. */
  lemma SubmittedBlockIsSound(s: State, hash: Digest, sha: Digest, block: Block) returns (submitted: Block)
    requires Reachable(s) && s.returned.Solved? && s.returned.found.nonce >= TWO_TO_THE_32
    requires block.nonce >= TWO_TO_THE_32 && Search.Hashes(s.job, hash, Search.BlockTemplate(sha, block))
    ensures submitted == block.(nonce := s.returned.found.nonce,
                                meta := block.meta.(hash := Some(s.returned.found.hash)))
    ensures submitted.meta.hash == Some(hash(BlockPow(sha, submitted)))
    ensures Meets(submitted.meta.hash.value, s.job.target)
  {
    var i, k := FoundIsSound(s);
    var nonce := s.returned.found.nonce;
    submitted := block.(nonce := nonce, meta := block.meta.(hash := Some(s.returned.found.hash)));
    Search.BlockBytesAgree(sha, block, nonce);
    assert Stripped(submitted) == Stripped(block.(nonce := nonce));
  }

  /** Without a hit, every single worker left the search of this generation because of a flag that was up: the stop, the
      quit, or the job's cancellation or outdating at some time since it was published. */
  lemma NoHitHasCauses(s: State, i: nat)
    requires Reachable(s) && s.returned.NoHit? && i < |s.workers|
    ensures var w := s.workers[i];
            && w.observed == s.gen && w.rounds == s.gen && w.left.Some?
            && match w.left.value
               case StopFlag => s.signals.stop
               case QuitFlag => s.signals.quit
               case CancelFlag => s.signals.cancelSeen
               case VersionFlag => s.signals.versionSeen
  {
    ReachableInv(s);
    Known(s, i);
    assert Done(s.workers[i], s.gen) && s.workers[i].left.Some?;
  }

  /** An exception that the call passes on is that of a worker that failed in this generation. */
  lemma ThrewHasCause(s: State)
    requires Reachable(s) && s.returned.Threw?
    ensures s.returned.worker < |s.workers|
    ensures var w := s.workers[s.returned.worker]; w.failed && w.observed == s.gen
  {
    ReachableInv(s);
  }

  /** Generation barrier: a worker takes part in each generation at most once and in none twice or late; a worker at
      work holds the current job; the completion count is the number of workers done. */
  lemma Barrier(s: State, i: nat)
    requires Reachable(s) && i < |s.workers|
    ensures var w := s.workers[i];
            && s.gen - 1 <= w.observed <= s.gen
            && w.rounds == (if Idle(w.pc) then w.observed else w.observed - 1)
            && (!Idle(w.pc) ==> w.observed == s.gen && w.job == s.job)
    ensures s.gen > 0 ==> s.completed == CountDone(s.workers, s.gen)
    ensures !AfterShut(s.publisher) && s.gen > 0 ==> (s.finished <==> AllDone(s.workers, s.gen))
  {
    ReachableInv(s);
    Known(s, i);
    CountAll(s.workers, s.gen);
  }

  /** Unless a stop is requested, no worker is at work outside of `mine_block` or while its result is read, so none
      uses the caller's cancel flag after the call. */
  lemma QuietOutside(s: State, i: nat)
    requires Reachable(s) && i < |s.workers| && !s.signals.stop
    requires !s.publisher.Notifying? && !s.publisher.Testing? && !s.publisher.Sleeping?
    ensures Idle(s.workers[i].pc) && s.workers[i].observed == s.gen
  {
    ReachableInv(s);
    assert Done(s.workers[i], s.gen);
  }

  /** The worker has not completed the current generation and has a step to take in it: to pick up the job, or a step
      of its work. */
  predicate Owes(w: Worker, gen: nat) {
    !Done(w, gen) && ((w.pc.Waiting? && w.observed != gen) || !Idle(w.pc))
  }

  /** `mine_block` never waits for nothing. After a stop, a thread is about to wake it; otherwise some worker has not
      completed, and every worker that has not is about to pick up the job or at work on it. */
  lemma NeverStuck(s: State)
    requires Reachable(s) && s.publisher.Sleeping?
    ensures s.signals.stop ==> StopPending(s.stoppers)
    ensures exists i :: 0 <= i < |s.workers| && !Done(s.workers[i], s.gen)
    ensures !s.signals.stop ==>
              forall i :: 0 <= i < |s.workers| && !Done(s.workers[i], s.gen) ==> Owes(s.workers[i], s.gen)
  {
    ReachableInv(s);
    CountAll(s.workers, s.gen);
    if !s.signals.stop {
      forall i: nat | i < |s.workers| && !Done(s.workers[i], s.gen)
        ensures Owes(s.workers[i], s.gen)
      {
        Known(s, i);
      }
    }
  }

  /** No worker sleeps through a new generation or a stop, and joining the workers ends with all of them gone. */
  lemma NoLostWakeup(s: State, i: nat)
    requires Reachable(s) && i < |s.workers|
    ensures s.workers[i].pc.Asleep? && (s.workStop || s.gen != s.workers[i].observed) ==> WorkersWillWake(s)
    ensures s.publisher.Joining? && !s.workers[i].pc.Exited? ==>
              s.workers[i].pc.Waiting? || !Idle(s.workers[i].pc) || WorkersWillWake(s)
    ensures s.publisher.Gone? ==> s.workers[i].pc.Exited?
  {
    ReachableInv(s);
    Known(s, i);
  }

  // ---- A stop ends the wait ----

  /** All steps of a schedule, one after the other. */
  ghost predicate Schedule(states: seq<State>, events: seq<Event>) {
    && |states| == |events| + 1
    && forall n :: 0 <= n < |events| ==> LeadsTo(states[n], events[n], states[n + 1])
  }

  lemma Extend(states: seq<State>, events: seq<Event>, e: Event) returns (more: seq<State>, all: seq<Event>)
    requires Schedule(states, events) && Enabled(states[|events|], e)
    ensures Schedule(more, all) && more[0] == states[0]
    ensures |all| == |events| + 1 && more[|all|] == Next(states[|events|], e)
  {
    more, all := states + [Next(states[|events|], e)], events + [e];
    forall n | 0 <= n < |all|
      ensures LeadsTo(more[n], all[n], more[n + 1])
    {
      assert n < |events| ==> LeadsTo(states[n], events[n], states[n + 1]);
    }
  }

  /** How many steps a stopper has left. */
  function StepsLeft(pc: StopperPc): nat {
    match pc
    case Resting => 0
    case SetQuit => 4
    case SetWorkStop => 3
    case NotifyWork => 2
    case NotifyDone => 1
  }

  /** The publisher sleeps before the end of a generation, and stopper `i` is on its way. */
  predicate Coming(s: State, i: nat) {
    && s.publisher.Sleeping? && !s.finished && s.signals.stop
    && i < |s.stoppers| && !s.stoppers[i].Resting?
  }

  lemma StopperArrives(s: State, i: nat)
    requires Coming(s, i)
    ensures var t := StopperTurn(s, i);
            if s.stoppers[i].NotifyDone? then t.publisher.Testing? && !t.finished && t.signals.stop && t.job == s.job
                                              && |t.workers| == |s.workers|
            else Coming(t, i) && StepsLeft(t.stoppers[i]) == StepsLeft(s.stoppers[i]) - 1 && t.job == s.job
                 && |t.workers| == |s.workers|
  {
  }

  lemma {:induction false} StopperWakes(states: seq<State>, events: seq<Event>, i: nat)
      returns (more: seq<State>, all: seq<Event>)
    requires Schedule(states, events) && Coming(states[|events|], i)
    ensures Schedule(more, all) && more[0] == states[0]
    ensures |all| == |events| + StepsLeft(states[|events|].stoppers[i])
    ensures var t := more[|all|]; t.publisher.Testing? && !t.finished && t.signals.stop
    ensures more[|all|].job == states[|events|].job && |more[|all|].workers| == |states[|events|].workers|
    decreases StepsLeft(states[|events|].stoppers[i])
  {
    var s := states[|events|];
    StopperArrives(s, i);
    more, all := Extend(states, events, RequestStop(i));
    if !s.stoppers[i].NotifyDone? {
      more, all := StopperWakes(more, all, i);
    }
  }

  lemma PublisherLeaves(states: seq<State>, events: seq<Event>) returns (more: seq<State>, all: seq<Event>)
    requires Schedule(states, events)
    requires var s := states[|events|];
             s.publisher.Testing? && !s.finished && s.signals.stop && s.job.step == |s.workers|
    ensures Schedule(more, all) && more[0] == states[0] && |all| == |events| + 2
    ensures more[|all|].publisher.Outside? && more[|all|].returned.Interrupted?
  {
    var job := states[|events|].job;
    more, all := Extend(states, events, Advance(job));
    more, all := Extend(more, all, Advance(job));
  }

  lemma SleepingMeans(s: State)
    requires Reachable(s) && s.publisher.Sleeping?
    ensures !s.finished && s.job.step == |s.workers| && (s.signals.stop ==> StopPending(s.stoppers))
  {
    ReachableInv(s);
  }

  lemma OneOf(stoppers: seq<StopperPc>) returns (i: nat)
    requires StopPending(stoppers)
    ensures i < |stoppers| && !stoppers[i].Resting?
  {
    i :| 0 <= i < |stoppers| && !stoppers[i].Resting?;
  }

  lemma SomeoneComes(s: State) returns (i: nat)
    requires Reachable(s) && s.publisher.Sleeping? && s.signals.stop
    ensures Coming(s, i) && StepsLeft(s.stoppers[i]) <= 4 && s.job.step == |s.workers|
  {
    SleepingMeans(s);
    i := OneOf(s.stoppers);
  }

  /** After a stop, at most six steps lead from the wait out of `mine_block`. */
  lemma StopEndsTheWait(s: State) returns (states: seq<State>, events: seq<Event>)
    requires Reachable(s) && s.publisher.Sleeping? && s.signals.stop
    ensures Schedule(states, events) && states[0] == s && |events| <= 6
    ensures states[|events|].publisher.Outside? && states[|events|].returned.Interrupted?
  {
    var i := SomeoneComes(s);
    states, events := StopperWakes([s], [], i);
    states, events := PublisherLeaves(states, events);
  }
}
