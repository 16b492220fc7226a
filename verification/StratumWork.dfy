/** What the workers of a stratum pool do: which job and which nonces they try, and that no hit is lost. */
module StratumWork {
  import opened Machine
  import opened PowBuffer
  import opened StratumJobs
  import opened StratumShares

  /** A worker at work has the job of the version that it has seen. */
  predicate HasJob(jobs: seq<StratumJob>, me: Worker) {
    && me.observed <= |jobs|
    && (me.pc != Waiting ==> me.observed > 0 && me.job == Some(jobs[me.observed - 1]))
  }

  /** What it has tried: jobs in the order of their arrival, and nonces one stride apart. */
  ghost predicate InProgression(me: Worker, first: u32, threads: nat) {
    && me.nonce == (first + |me.tried| * threads) % TWO_TO_THE_32
    && (forall k :: 0 <= k < |me.tried| ==> me.tried[k].nonce == (first + k * threads) % TWO_TO_THE_32)
  }

  ghost predicate InOrderOfJobs(me: Worker) {
    && (forall k :: 0 <= k < |me.tried| ==> 0 < me.tried[k].version <= me.observed)
    && (forall j, k :: 0 <= j < k < |me.tried| ==> me.tried[j].version <= me.tried[k].version)
  }

  /** The trial was of a job with room, and if it hit, its share is in `found` or in the worker's hand. */
  ghost predicate Accounted(hash: Digest, jobs: seq<StratumJob>, found: seq<Share>, pc: WorkerPc, trial: Trial) {
    && 0 < trial.version <= |jobs| && Usable(jobs[trial.version - 1])
    && var share := Tried(hash, jobs[trial.version - 1], trial.nonce);
       share.Some? ==> share.value in found || pc == Pushing(share.value)
  }

  ghost predicate NoHitLost(hash: Digest, jobs: seq<StratumJob>, found: seq<Share>, me: Worker) {
    forall k :: 0 <= k < |me.tried| ==> Accounted(hash, jobs, found, me.pc, me.tried[k])
  }

  ghost predicate GoodWorker(hash: Digest, s: State, me: Worker, first: u32) {
    && HasJob(s.jobs, me) && InProgression(me, first, |s.workers|) && InOrderOfJobs(me)
    && NoHitLost(hash, s.jobs, s.found, me)
  }

  /** The version counts the jobs, and the last one is active. */
  predicate JobsOk(s: State) {
    && s.version == |s.jobs|
    && s.active == if s.jobs == [] then None else Some(s.jobs[|s.jobs| - 1])
  }

  ghost predicate WorkOk(hash: Digest, s: State, start: State) {
    && JobsOk(s) && |s.workers| == |start.workers|
    && forall w :: 0 <= w < |s.workers| ==> GoodWorker(hash, s, s.workers[w], start.workers[w].nonce)
  }

  // ---- One worker ----

  lemma NextInProgression(first: nat, n: nat, threads: nat)
    ensures ((first + n * threads) % TWO_TO_THE_32 + threads % TWO_TO_THE_32) % TWO_TO_THE_32
         == (first + (n + 1) * threads) % TWO_TO_THE_32
  {
    assert first + (n + 1) * threads == (first + n * threads) + threads;
    SumOfRests(first + n * threads, threads);
  }

  lemma SumOfRests(a: nat, b: nat)
    ensures (a % TWO_TO_THE_32 + b % TWO_TO_THE_32) % TWO_TO_THE_32 == (a + b) % TWO_TO_THE_32
    ensures (a % TWO_TO_THE_32 + b) % TWO_TO_THE_32 == (a + b) % TWO_TO_THE_32
  {
  }

  lemma TryingStays(hash: Digest, s: State, me: Worker, first: u32)
    requires GoodWorker(hash, s, me, first) && me.pc.Trying?
    ensures GoodWorker(hash, s, AfterTrying(hash, me, me.job.value, |s.workers|), first)
  {
    var job := me.job.value;
    var after := AfterTrying(hash, me, job, |s.workers|);
    if Usable(job) {
      NextInProgression(first, |me.tried|, |s.workers|);
      forall k | 0 <= k < |after.tried|
        ensures Accounted(hash, s.jobs, s.found, after.pc, after.tried[k])
      {
        if k < |me.tried| {
          assert Accounted(hash, s.jobs, s.found, me.pc, me.tried[k]);
        }
      }
    } else {
      forall k | 0 <= k < |me.tried|
        ensures Accounted(hash, s.jobs, s.found, after.pc, me.tried[k])
      {
        assert Accounted(hash, s.jobs, s.found, me.pc, me.tried[k]);
      }
    }
  }

  /** More jobs and shares, or another place in the program, keep what a worker has done. */
  lemma StaysGood(hash: Digest, s: State, me: Worker, first: u32, t: State, pc: WorkerPc)
    requires GoodWorker(hash, s, me, first) && |t.workers| == |s.workers|
    requires s.jobs <= t.jobs && forall share :: share in s.found ==> share in t.found
    requires pc != Waiting ==> me.pc != Waiting
    requires me.pc.Pushing? ==> pc == me.pc || me.pc.share in t.found
    ensures GoodWorker(hash, t, me.(pc := pc), first)
  {
    var after := me.(pc := pc);
    forall k | 0 <= k < |me.tried|
      ensures Accounted(hash, t.jobs, t.found, pc, after.tried[k])
    {
      assert Accounted(hash, s.jobs, s.found, me.pc, me.tried[k]);
    }
  }

  lemma TakesJob(hash: Digest, s: State, me: Worker, first: u32, pc: WorkerPc)
    requires GoodWorker(hash, s, me, first) && JobsOk(s) && s.active.Some? && me.pc == Waiting
    ensures GoodWorker(hash, s, me.(observed := s.version, job := s.active, pc := pc), first)
  {
    forall k | 0 <= k < |me.tried|
      ensures Accounted(hash, s.jobs, s.found, pc, me.tried[k])
    {
      assert Accounted(hash, s.jobs, s.found, me.pc, me.tried[k]);
    }
  }

  // ---- Every run ----

  /** One worker has moved, and shares may have been queued. */
  lemma OneMoved(hash: Digest, s: State, start: State, w: nat, me: Worker, pending: seq<Share>, found: seq<Share>)
    requires WorkOk(hash, s, start) && w < |s.workers| && s.found <= found
    requires GoodWorker(hash, s.(found := found), me, start.workers[w].nonce)
    ensures WorkOk(hash, SetWorker(s, w, me).(pending := pending, found := found), start)
  {
    var t := SetWorker(s, w, me).(pending := pending, found := found);
    forall v | 0 <= v < |t.workers|
      ensures GoodWorker(hash, t, t.workers[v], start.workers[v].nonce)
    {
      if v == w {
        StaysGood(hash, s.(found := found), me, start.workers[v].nonce, t, me.pc);
      } else {
        StaysGood(hash, s, s.workers[v], start.workers[v].nonce, t, s.workers[v].pc);
      }
    }
  }

  lemma WorkerStays(hash: Digest, s: State, start: State, w: nat, leave: bool)
    requires WorkOk(hash, s, start) && w < |s.workers|
    ensures WorkOk(hash, WorkerStep(hash, s, w, leave), start)
  {
    var me, first := s.workers[w], start.workers[w].nonce;
    assert GoodWorker(hash, s, me, first);
    match me.pc
    case Waiting =>
      if s.active.Some? && s.version != me.observed {
        var pc := if SeemsUsable(s.active.value) then Looping else Waiting;
        TakesJob(hash, s, me, first, pc);
        OneMoved(hash, s, start, w, me.(observed := s.version, job := s.active, pc := pc), s.pending, s.found);
      }
    case Looping =>
      var pc := if leave || s.version != me.observed then Waiting else Trying;
      StaysGood(hash, s, me, first, s, pc);
      OneMoved(hash, s, start, w, me.(pc := pc), s.pending, s.found);
    case Trying =>
      TryingStays(hash, s, me, first);
      OneMoved(hash, s, start, w, AfterTrying(hash, me, me.job.value, |s.workers|), s.pending, s.found);
    case Pushing(share) =>
      var found := s.found + [share];
      StaysGood(hash, s, me, first, s.(found := found), Looping);
      OneMoved(hash, s, start, w, me.(pc := Looping), s.pending + [share], found);
    case OutOfBounds =>
  }

  /** The main loop leaves the workers and the shares found alone, and only adds to the jobs. */
  lemma MainLeaves(s: State, polled: Option<StratumJob>, answer: Answer)
    requires JobsOk(s)
    ensures var t := MainStep(s, polled, answer);
            t.workers == s.workers && t.found == s.found && s.jobs <= t.jobs && JobsOk(t)
  {
    match s.main
    case Submitting(share) => SubmittedLeaves(s, share, answer);
    case Retrying(share, first) => RetriedLeaves(s, share, first, answer);
    case _ =>
  }

  lemma SubmittedLeaves(s: State, share: Share, answer: Answer)
    ensures var t := Submitted(s, share, answer);
            && t.workers == s.workers && t.found == s.found
            && t.jobs == s.jobs && t.version == s.version && t.active == s.active
  {
  }

  lemma RetriedLeaves(s: State, share: Share, first: Attempt, answer: Answer)
    ensures var t := Retried(s, share, first, answer);
            && t.workers == s.workers && t.found == s.found
            && t.jobs == s.jobs && t.version == s.version && t.active == s.active
  {
  }

  lemma MainStays(hash: Digest, s: State, start: State, polled: Option<StratumJob>, answer: Answer)
    requires WorkOk(hash, s, start)
    ensures WorkOk(hash, MainStep(s, polled, answer), start)
  {
    MainLeaves(s, polled, answer);
    var t := MainStep(s, polled, answer);
    forall w | 0 <= w < |t.workers|
      ensures GoodWorker(hash, t, t.workers[w], start.workers[w].nonce)
    {
      StaysGood(hash, s, s.workers[w], start.workers[w].nonce, t, s.workers[w].pc);
    }
  }

  lemma {:induction false} WorkKeeps(hash: Digest, start: State, events: seq<Event>)
    requires Initial(start)
    ensures WorkOk(hash, Execute(hash, start, events), start)
  {
    if events != [] {
      WorkKeeps(hash, start, events[..|events| - 1]);
      var before := Execute(hash, start, events[..|events| - 1]);
      match events[|events| - 1]
      case Work(w, leave) =>
        if w < |before.workers| {
          WorkerStays(hash, before, start, w, leave);
        }
      case Main(polled, answer) => MainStays(hash, before, start, polled, answer);
    }
  }

  // ---- What every run keeps ----

  /** The `k`-th nonce that a worker tries is its first one and `k` strides; it tries the jobs in the order of their
      arrival, and only ones with room. */
  lemma TriedInOrder(hash: Digest, start: State, events: seq<Event>, w: nat, k: nat)
    requires Initial(start) && w < |start.workers|
    requires w < |Execute(hash, start, events).workers| && k < |Execute(hash, start, events).workers[w].tried|
    ensures var s := Execute(hash, start, events);
            var tried := s.workers[w].tried;
            && tried[k].nonce == (start.workers[w].nonce + k * |start.workers|) % TWO_TO_THE_32
            && 0 < tried[k].version <= |s.jobs| && Usable(s.jobs[tried[k].version - 1])
            && (k > 0 ==> tried[k - 1].version <= tried[k].version)
  {
    WorkKeeps(hash, start, events);
    var s := Execute(hash, start, events);
    assert GoodWorker(hash, s, s.workers[w], start.workers[w].nonce);
    assert Accounted(hash, s.jobs, s.found, s.workers[w].pc, s.workers[w].tried[k]);
  }

  /** No hit is lost: whatever is tried and meets the target of its job has been queued, or is about to be. */
  lemma HitsAreQueued(hash: Digest, start: State, events: seq<Event>, w: nat, k: nat)
    requires Initial(start)
    requires w < |Execute(hash, start, events).workers| && k < |Execute(hash, start, events).workers[w].tried|
    ensures var s := Execute(hash, start, events);
            Accounted(hash, s.jobs, s.found, s.workers[w].pc, s.workers[w].tried[k])
  {
    WorkKeeps(hash, start, events);
    var s := Execute(hash, start, events);
    assert GoodWorker(hash, s, s.workers[w], start.workers[w].nonce);
  }

  lemma NonceOfTrial(hash: Digest, start: State, events: seq<Event>, w: nat, k: nat)
    requires Initial(start) && w < |start.workers|
    requires w < |Execute(hash, start, events).workers| && k < |Execute(hash, start, events).workers[w].tried|
    ensures Execute(hash, start, events).workers[w].tried[k].nonce
         == (start.workers[w].nonce + k * |start.workers|) % TWO_TO_THE_32
  {
    TriedInOrder(hash, start, events, w, k);
  }

  /** A worker comes back to a nonce exactly when its strides add up to a multiple of 2^32. Two workers may try the same
      nonce: each has drawn its own first one. */
  lemma NoncesRepeat(hash: Digest, start: State, events: seq<Event>, w: nat, i: nat, j: nat)
    requires Initial(start) && w < |start.workers|
    requires w < |Execute(hash, start, events).workers| && i <= j < |Execute(hash, start, events).workers[w].tried|
    ensures var tried := Execute(hash, start, events).workers[w].tried;
            tried[i].nonce == tried[j].nonce <==> (j - i) * |start.workers| % TWO_TO_THE_32 == 0
  {
    NonceOfTrial(hash, start, events, w, i);
    NonceOfTrial(hash, start, events, w, j);
    StridesMeet(start.workers[w].nonce, i, j, |start.workers|);
  }

  lemma StridesMeet(first: nat, i: nat, j: nat, threads: nat)
    requires i <= j
    ensures (first + i * threads) % TWO_TO_THE_32 == (first + j * threads) % TWO_TO_THE_32
       <==> (j - i) * threads % TWO_TO_THE_32 == 0
  {
    var a, b := i * threads, (j - i) * threads;
    StridesAdd(i, j, threads);
    SameRest(first + a, b);
    assert first + j * threads == (first + a) + b;
  }

  lemma StridesAdd(i: nat, j: nat, threads: nat)
    requires i <= j
    ensures j * threads == i * threads + (j - i) * threads
  {
  }

  lemma SameRest(a: nat, b: nat)
    ensures a % TWO_TO_THE_32 == (a + b) % TWO_TO_THE_32 <==> b % TWO_TO_THE_32 == 0
  {
    var r := a % TWO_TO_THE_32;
    SumOfRests(a, b);
    RestMoves(r, b % TWO_TO_THE_32);
  }

  lemma RestMoves(r: u32, s: u32)
    ensures (r + s) % TWO_TO_THE_32 == r <==> s == 0
  {
  }

  // ---- Old jobs ----

  /** The number of trials of versions below `version`. */
  function Old(tried: seq<Trial>, version: nat): nat {
    if tried == [] then 0
    else Old(tried[..|tried| - 1], version) + (if tried[|tried| - 1].version < version then 1 else 0)
  }

  /** One more, if the worker is past its look at the version. */
  function OldAhead(me: Worker, version: nat): nat {
    Old(me.tried, version) + (if me.pc == Trying && me.observed < version then 1 else 0)
  }

  lemma OldSnoc(tried: seq<Trial>, trial: Trial, version: nat)
    ensures Old(tried + [trial], version) == Old(tried, version) + (if trial.version < version then 1 else 0)
  {
    assert (tried + [trial])[..|tried|] == tried;
  }

  lemma OldTrial(hash: Digest, me: Worker, job: StratumJob, threads: nat, version: nat)
    requires me.pc == Trying
    ensures OldAhead(AfterTrying(hash, me, job, threads), version) <= OldAhead(me, version)
  {
    OldSnoc(me.tried, Trial(me.observed, me.nonce), version);
  }

  lemma OldWorkerStep(hash: Digest, s: State, w: nat, leave: bool, version: nat)
    requires w < |s.workers| && version <= s.version
    ensures OldAhead(WorkerStep(hash, s, w, leave).workers[w], version) <= OldAhead(s.workers[w], version)
  {
    var me := s.workers[w];
    if me.pc == Trying && me.job.Some? {
      OldTrial(hash, me, me.job.value, |s.workers|, version);
    }
  }

  lemma WorkerAlone(hash: Digest, s: State, v: nat, leave: bool)
    requires v < |s.workers|
    ensures var t := WorkerStep(hash, s, v, leave);
            && |t.workers| == |s.workers| && t.version == s.version
            && forall w :: 0 <= w < |s.workers| && w != v ==> t.workers[w] == s.workers[w]
  {
  }

  lemma MainGoesOn(s: State, polled: Option<StratumJob>, answer: Answer)
    ensures var t := MainStep(s, polled, answer);
            t.workers == s.workers && s.version <= t.version
  {
  }

  lemma OldStep(hash: Digest, s: State, e: Event, w: nat, version: nat)
    requires w < |s.workers| && version <= s.version
    ensures var t := Next(hash, s, e);
            |t.workers| == |s.workers| && version <= t.version
            && OldAhead(t.workers[w], version) <= OldAhead(s.workers[w], version)
  {
    match e
    case Work(v, leave) =>
      if v < |s.workers| {
        WorkerAlone(hash, s, v, leave);
        OldWorkerStep(hash, s, w, leave, version);
      }
    case Main(polled, answer) => MainGoesOn(s, polled, answer);
  }

  /** Once a new job is there, a worker tries at most one more nonce for any older one, over every schedule; none, if
      it has not yet looked at the version. */
  lemma {:induction false} OldJobsEnd(hash: Digest, s: State, events: seq<Event>, w: nat)
    requires w < |s.workers|
    ensures var t := Execute(hash, s, events);
            |t.workers| == |s.workers| && s.version <= t.version
            && OldAhead(t.workers[w], s.version) <= OldAhead(s.workers[w], s.version)
    ensures OldAhead(s.workers[w], s.version)
         <= Old(s.workers[w].tried, s.version) + (if s.workers[w].pc == Trying then 1 else 0)
    decreases |events|
  {
    if events != [] {
      OldJobsEnd(hash, s, events[..|events| - 1], w);
      OldStep(hash, Execute(hash, s, events[..|events| - 1]), events[|events| - 1], w, s.version);
    }
  }

  // ---- Being told to leave ----

  /** At every look, worker `w` is told to leave. */
  predicate Told(events: seq<Event>, w: nat) {
    forall i :: 0 <= i < |events| ==> events[i].Work? && events[i].w == w ==> events[i].leave
  }

  /** The number of trials, and one more if the worker is past its look. */
  function Ahead(me: Worker): nat {
    |me.tried| + (if me.pc == Trying then 1 else 0)
  }

  lemma ToldTurn(hash: Digest, s: State, w: nat)
    requires w < |s.workers|
    ensures Ahead(WorkerStep(hash, s, w, true).workers[w]) <= Ahead(s.workers[w])
  {
  }

  /** A worker that is told to leave, because mining stops or is paused, tries at most one more nonce. */
  lemma {:induction false} LeavesWhenTold(hash: Digest, s: State, events: seq<Event>, w: nat)
    requires w < |s.workers| && Told(events, w)
    ensures var t := Execute(hash, s, events);
            |t.workers| == |s.workers| && Ahead(t.workers[w]) <= Ahead(s.workers[w]) <= |s.workers[w].tried| + 1
    decreases |events|
  {
    if events != [] {
      var n := |events| - 1;
      LeavesWhenTold(hash, s, events[..n], w);
      var t := Execute(hash, s, events[..n]);
      match events[n]
      case Work(v, leave) =>
        if v == w {
          ToldTurn(hash, t, w);
        } else if v < |t.workers| {
          WorkerAlone(hash, t, v, leave);
        }
      case Main(polled, answer) => MainGoesOn(t, polled, answer);
    }
  }
}
