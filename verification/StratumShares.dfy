/** Mining for a stratum pool: workers queue shares, one thread takes jobs from the pool and submits shares. */
module StratumShares {
  import opened Machine
  import opened PowBuffer
  import opened StratumJobs

  // ---- States ----

  datatype WorkerPc =
    | Waiting
    | Looping
    | Trying
    | Pushing(share: Share)
    | OutOfBounds               // wrote the nonce outside the blob; undefined from here on

  /** `tried` is history: the versions and nonces that were tried. */
  datatype Worker = Worker(pc: WorkerPc, observed: nat, job: Option<StratumJob>, nonce: u32, tried: seq<Trial>)

  datatype Trial = Trial(version: nat, nonce: u32)

  datatype MainPc =
    | Polling
    | Dropping                  // a clean job arrived
    | Taking
    | Checking(share: Share)
    | Submitting(share: Share)
    | Retrying(share: Share, first: Attempt)

  /** What the pool says to a submission. */
  datatype Answer = NoAnswer | Accept | Reject(mismatch: bool)

  datatype Fate = DroppedClean | DroppedStale | Failed | Accepted | Rejected

  /** The form of the nonce that was submitted, the job that was active then, and what the pool said. */
  datatype Attempt = Attempt(alt: bool, activeId: string, answer: Answer)

  /** What became of a share: its fate, what was submitted for it, and the job that was active when it met its fate. */
  datatype Handled = Handled(share: Share, fate: Fate, attempts: seq<Attempt>, active: Option<StratumJob>)

  /** `found`, `handled` and `jobs` are history: all shares in the order in which they were queued, those that have met
      their fate, and all jobs. */
  datatype State = State(
    active: Option<StratumJob>, version: nat, workers: seq<Worker>, pending: seq<Share>, main: MainPc,
    preferAlt: bool, accepted: nat, rejected: nat,
    found: seq<Share>, handled: seq<Handled>, jobs: seq<StratumJob>)

  predicate Initial(s: State) {
    && s.active == None && s.version == 0 && s.pending == [] && s.main == Polling && !s.preferAlt
    && s.accepted == 0 && s.rejected == 0 && s.found == [] && s.handled == [] && s.jobs == []
    && forall w :: 0 <= w < |s.workers| ==> Fresh(s.workers[w])
  }

  predicate Fresh(me: Worker) {
    me.pc == Waiting && me.observed == 0 && me.tried == []
  }

  // ---- Steps ----

  function SetWorker(s: State, w: nat, worker: Worker): State
    requires w < |s.workers|
  {
    s.(workers := s.workers[w := worker])
  }

  /** One step of a worker; it leaves its loop when it is told to or when there is a newer job. */
  function WorkerStep(hash: Digest, s: State, w: nat, leave: bool): State
    requires w < |s.workers|
  {
    var me := s.workers[w];
    match me.pc
    case Waiting =>
      if s.active.Some? && s.version != me.observed
        then SetWorker(s, w, me.(observed := s.version, job := s.active,
                                 pc := if SeemsUsable(s.active.value) then Looping else Waiting))
      else s
    case Looping => SetWorker(s, w, me.(pc := if leave || s.version != me.observed then Waiting else Trying))
    case Trying => if me.job.Some? then SetWorker(s, w, AfterTrying(hash, me, me.job.value, |s.workers|)) else s
    case Pushing(share) =>
      SetWorker(s, w, me.(pc := Looping)).(pending := s.pending + [share], found := s.found + [share])
    case OutOfBounds => s
  }

  function AfterTrying(hash: Digest, me: Worker, job: StratumJob, threads: nat): Worker {
    if !Usable(job) then me.(pc := OutOfBounds)
    else
      me.(nonce := NextNonce(me.nonce, threads % TWO_TO_THE_32), tried := me.tried + [Trial(me.observed, me.nonce)],
          pc := if Tried(hash, job, me.nonce).Some? then Pushing(Tried(hash, job, me.nonce).value) else Looping)
  }

  function Dropped(shares: seq<Share>, active: Option<StratumJob>): seq<Handled> {
    seq(|shares|, i requires 0 <= i < |shares| => Handled(shares[i], DroppedClean, [], active))
  }

  function NewJob(s: State, job: StratumJob): State {
    s.(active := Some(job), version := s.version + 1, jobs := s.jobs + [job],
       main := if job.cleanJobs then Dropping else Taking)
  }

  /** The nonce of a share in one of its two forms. */
  function Form(share: Share, alt: bool): string {
    if alt then share.nonceHexAlt else share.nonceHex
  }

  function ActiveId(s: State): string {
    if s.active.Some? then s.active.value.jobId else ""
  }

  function Finish(s: State, share: Share, fate: Fate, attempts: seq<Attempt>): State {
    s.(main := Polling, handled := s.handled + [Handled(share, fate, attempts, s.active)],
       accepted := s.accepted + (if fate == Accepted then 1 else 0),
       rejected := s.rejected + (if fate == Rejected then 1 else 0))
  }

  /** The other form is worth trying. */
  predicate Retryable(share: Share, alt: bool, answer: Answer) {
    answer == Reject(true) && Form(share, !alt) != Form(share, alt) && Form(share, !alt) != ""
  }

  function Submitted(s: State, share: Share, answer: Answer): State {
    var attempt := Attempt(s.preferAlt, ActiveId(s), answer);
    match answer
    case NoAnswer => Finish(s, share, Failed, [attempt])
    case Accept => Finish(s, share, Accepted, [attempt])
    case Reject(_) =>
      if Retryable(share, s.preferAlt, answer) then s.(main := Retrying(share, attempt))
      else Finish(s, share, Rejected, [attempt])
  }

  function Retried(s: State, share: Share, first: Attempt, answer: Answer): State {
    var attempts := [first, Attempt(!s.preferAlt, ActiveId(s), answer)];
    if answer == Accept then Finish(s, share, Accepted, attempts).(preferAlt := !s.preferAlt)
    else Finish(s, share, Rejected, attempts)
  }

  /** One step of the main loop: what it polls, and what the pool answers, come from outside. */
  function MainStep(s: State, polled: Option<StratumJob>, answer: Answer): State {
    match s.main
    case Polling => if polled.Some? then NewJob(s, polled.value) else s.(main := Taking)
    case Dropping => s.(handled := s.handled + Dropped(s.pending, s.active), pending := [], main := Taking)
    case Taking =>
      if s.pending == [] then s.(main := Polling)
      else s.(main := Checking(s.pending[0]), pending := s.pending[1..])
    case Checking(share) =>
      if s.active.Some? && share.jobId != s.active.value.jobId then Finish(s, share, DroppedStale, [])
      else s.(main := Submitting(share))
    case Submitting(share) => Submitted(s, share, answer)
    case Retrying(share, first) => Retried(s, share, first, answer)
  }

  datatype Event =
    | Work(w: nat, leave: bool)
    | Main(polled: Option<StratumJob>, answer: Answer)

  function Next(hash: Digest, s: State, e: Event): State {
    match e
    case Work(w, leave) => if w < |s.workers| then WorkerStep(hash, s, w, leave) else s
    case Main(polled, answer) => MainStep(s, polled, answer)
  }

  function Execute(hash: Digest, s: State, events: seq<Event>): State
    decreases |events|
  {
    if events == [] then s else Next(hash, Execute(hash, s, events[..|events| - 1]), events[|events| - 1])
  }

  // ---- Every run ----

  function Shares(handled: seq<Handled>): (shares: seq<Share>)
    ensures |shares| == |handled|
  {
    if handled == [] then [] else Shares(handled[..|handled| - 1]) + [handled[|handled| - 1].share]
  }

  function InHand(main: MainPc): seq<Share> {
    match main
    case Checking(share) => [share]
    case Submitting(share) => [share]
    case Retrying(share, _) => [share]
    case _ => []
  }

  function Count(handled: seq<Handled>, fate: Fate): nat {
    if handled == [] then 0
    else Count(handled[..|handled| - 1], fate) + (if handled[|handled| - 1].fate == fate then 1 else 0)
  }

  /** A share comes from a job of the pool and meets its target. */
  predicate Sound(hash: Digest, jobs: seq<StratumJob>, share: Share) {
    share.job in jobs && Usable(share.job) && Tried(hash, share.job, share.nonce) == Some(share)
  }

  /** Every submission named the job that was active. */
  predicate GoodAttempts(share: Share, attempts: seq<Attempt>) {
    forall i :: 0 <= i < |attempts| ==> attempts[i].activeId == share.jobId
  }

  /** How often a share was tried follows from the pool's first answer. */
  predicate GoodTries(share: Share, attempts: seq<Attempt>) {
    if attempts == [] then true
    else if Retryable(share, attempts[0].alt, attempts[0].answer)
      then |attempts| == 2 && attempts[1].alt == !attempts[0].alt
    else |attempts| == 1
  }

  /** The fate that a share deserves: dropped for a clean job, dropped because another job is active, or decided by the
      last answer of the pool. */
  predicate GoodFate(h: Handled) {
    && h.active.Some? && GoodAttempts(h.share, h.attempts) && GoodTries(h.share, h.attempts)
    && (h.attempts != [] ==> h.active.value.jobId == h.share.jobId)
    && match h.fate
       case DroppedClean => h.attempts == [] && h.active.value.cleanJobs
       case DroppedStale => h.attempts == [] && h.active.value.jobId != h.share.jobId
       case Failed => |h.attempts| == 1 && h.attempts[0].answer == NoAnswer
       case Accepted => h.attempts != [] && h.attempts[|h.attempts| - 1].answer == Accept
       case Rejected =>
         && h.attempts != [] && h.attempts[|h.attempts| - 1].answer != Accept
         && (|h.attempts| == 1 ==> h.attempts[0].answer != NoAnswer)
  }

  /** Whether the preferred form has changed: by every second attempt that was accepted. */
  function Flipped(handled: seq<Handled>): bool {
    if handled == [] then false else Flipped(handled[..|handled| - 1]) != Flips(handled[|handled| - 1])
  }

  predicate Flips(h: Handled) {
    h.fate == Accepted && |h.attempts| == 2
  }

  /** The first form tried is the preferred one at that time. */
  predicate FirstForms(handled: seq<Handled>) {
    forall i :: 0 <= i < |handled| && handled[i].attempts != [] ==> handled[i].attempts[0].alt == Flipped(handled[..i])
  }

  ghost predicate Conserved(s: State) {
    && Shares(s.handled) + (InHand(s.main) + s.pending) == s.found
    && s.accepted == Count(s.handled, Accepted) && s.rejected == Count(s.handled, Rejected)
  }

  ghost predicate FatesOk(s: State) {
    && (forall i :: 0 <= i < |s.handled| ==> GoodFate(s.handled[i]))
    && FirstForms(s.handled) && s.preferAlt == Flipped(s.handled)
    && (s.main.Submitting? || s.main.Retrying? ==> s.active.Some? && s.main.share.jobId == s.active.value.jobId)
    && (s.main.Dropping? ==> s.active.Some? && s.active.value.cleanJobs)
    && (s.main.Retrying? ==>
          && s.main.first.alt == s.preferAlt && s.main.first.activeId == ActiveId(s)
          && Retryable(s.main.share, s.preferAlt, s.main.first.answer))
  }

  /** A worker at work has a job of the pool that passed the test; it leaves the blob only if there is no room. */
  ghost predicate WorkerOk(hash: Digest, jobs: seq<StratumJob>, me: Worker) {
    && (me.pc != Waiting ==> me.job.Some? && me.job.value in jobs && SeemsUsable(me.job.value))
    && (me.pc == OutOfBounds ==> !Usable(me.job.value))
    && (me.pc.Pushing? ==> Sound(hash, jobs, me.pc.share))
  }

  ghost predicate WorkersOk(hash: Digest, s: State) {
    && (s.active.Some? <==> s.jobs != [])
    && (forall share :: share in s.found ==> Sound(hash, s.jobs, share))
    && forall w :: 0 <= w < |s.workers| ==> WorkerOk(hash, s.jobs, s.workers[w])
  }

  ghost predicate Inv(hash: Digest, s: State) {
    Conserved(s) && FatesOk(s) && WorkersOk(hash, s) && (s.active.Some? ==> s.active.value in s.jobs)
  }

  lemma {:induction false} SharesSplit(a: seq<Handled>, b: seq<Handled>)
    ensures Shares(a + b) == Shares(a) + Shares(b)
  {
    if b == [] {
      assert a + b == a;
    } else {
      SharesSplit(a, b[..|b| - 1]);
      assert (a + b)[..|a + b| - 1] == a + b[..|b| - 1];
    }
  }

  lemma {:induction false} CountSplit(a: seq<Handled>, b: seq<Handled>, fate: Fate)
    ensures Count(a + b, fate) == Count(a, fate) + Count(b, fate)
  {
    if b == [] {
      assert a + b == a;
    } else {
      CountSplit(a, b[..|b| - 1], fate);
      assert (a + b)[..|a + b| - 1] == a + b[..|b| - 1];
    }
  }

  lemma {:induction false} DroppedShares(shares: seq<Share>, active: Option<StratumJob>)
    ensures var dropped := Dropped(shares, active);
            && Shares(dropped) == shares && Count(dropped, Accepted) == Count(dropped, Rejected) == 0
            && Count(dropped, DroppedClean) == |shares|
  {
    if shares != [] {
      var n := |shares| - 1;
      DroppedShares(shares[..n], active);
      assert Dropped(shares, active)[..n] == Dropped(shares[..n], active);
      assert shares == shares[..n] + [shares[n]];
    }
  }

  lemma FormsSnoc(handled: seq<Handled>, h: Handled)
    requires FirstForms(handled) && (h.attempts != [] ==> h.attempts[0].alt == Flipped(handled))
    ensures FirstForms(handled + [h]) && Flipped(handled + [h]) == (Flipped(handled) != Flips(h))
  {
    var all := handled + [h];
    assert all[..|handled|] == handled;
    forall i | 0 <= i < |all| && all[i].attempts != []
      ensures all[i].attempts[0].alt == Flipped(all[..i])
    {
      assert i < |handled| ==> all[..i] == handled[..i];
    }
  }

  lemma {:induction false} FormsDropped(handled: seq<Handled>, shares: seq<Share>, active: Option<StratumJob>)
    requires FirstForms(handled)
    ensures FirstForms(handled + Dropped(shares, active))
    ensures Flipped(handled + Dropped(shares, active)) == Flipped(handled)
  {
    if shares == [] {
      assert handled + Dropped(shares, active) == handled;
    } else {
      var n := |shares| - 1;
      var front, last := Dropped(shares[..n], active), Handled(shares[n], DroppedClean, [], active);
      FormsDropped(handled, shares[..n], active);
      FormsSnoc(handled + front, last);
      assert handled + Dropped(shares, active) == (handled + front) + [last];
    }
  }

  /** The job that is active while a share is in hand. */
  lemma ActiveInHand(hash: Digest, s: State)
    requires Inv(hash, s) && InHand(s.main) != []
    ensures s.active.Some?
  {
    assert s.found == Shares(s.handled) + (InHand(s.main) + s.pending);
    assert InHand(s.main)[0] in s.found;
    assert Sound(hash, s.jobs, InHand(s.main)[0]);
  }

  lemma FinishKeeps(hash: Digest, s: State, share: Share, fate: Fate, attempts: seq<Attempt>)
    requires Inv(hash, s) && InHand(s.main) == [share] && GoodFate(Handled(share, fate, attempts, s.active))
    requires attempts != [] ==> attempts[0].alt == s.preferAlt
    ensures Inv(hash, Finish(s, share, fate, attempts).(
              preferAlt := s.preferAlt != Flips(Handled(share, fate, attempts, s.active))))
  {
    var h := Handled(share, fate, attempts, s.active);
    var t := Finish(s, share, fate, attempts);
    assert t.handled[..|s.handled|] == s.handled;
    assert Shares(t.handled) == Shares(s.handled) + [share];
    Regroup(Shares(s.handled), [share], s.pending);
    FormsSnoc(s.handled, h);
  }

  lemma Regroup<T>(a: seq<T>, b: seq<T>, c: seq<T>)
    ensures a + (b + c) == (a + b) + ([] + c)
  {
  }

  // ---- The main loop ----

  lemma NewJobKeeps(hash: Digest, s: State, job: StratumJob)
    requires Inv(hash, s) && s.main.Polling?
    ensures Inv(hash, NewJob(s, job))
  {
    var t := NewJob(s, job);
    assert job in t.jobs;
    forall share | share in t.found
      ensures Sound(hash, t.jobs, share)
    {
      assert Sound(hash, s.jobs, share);
    }
    assert InHand(t.main) == InHand(s.main);
  }

  lemma DroppingKeeps(hash: Digest, s: State)
    requires Inv(hash, s) && s.main.Dropping?
    ensures Inv(hash, s.(handled := s.handled + Dropped(s.pending, s.active), pending := [], main := Taking))
  {
    var dropped := Dropped(s.pending, s.active);
    var t := s.(handled := s.handled + dropped, pending := [], main := Taking);
    DroppedShares(s.pending, s.active);
    SharesSplit(s.handled, dropped);
    CountSplit(s.handled, dropped, Accepted);
    CountSplit(s.handled, dropped, Rejected);
    FormsDropped(s.handled, s.pending, s.active);
    assert Shares(t.handled) + ([] + t.pending) == Shares(s.handled) + ([] + s.pending);
    forall i | 0 <= i < |t.handled|
      ensures GoodFate(t.handled[i])
    {
      assert i < |s.handled| ==> t.handled[i] == s.handled[i];
    }
  }

  lemma TakingKeeps(hash: Digest, s: State)
    requires Inv(hash, s) && s.main.Taking? && s.pending != []
    ensures Inv(hash, s.(main := Checking(s.pending[0]), pending := s.pending[1..]))
  {
    assert [] + s.pending == [s.pending[0]] + s.pending[1..];
  }

  lemma SubmittedKeeps(hash: Digest, s: State, share: Share, answer: Answer)
    requires Inv(hash, s) && s.main == Submitting(share)
    ensures Inv(hash, Submitted(s, share, answer))
  {
    var attempt := Attempt(s.preferAlt, ActiveId(s), answer);
    match answer
    case NoAnswer => FinishKeeps(hash, s, share, Failed, [attempt]);
    case Accept => FinishKeeps(hash, s, share, Accepted, [attempt]);
    case Reject(_) =>
      if !Retryable(share, s.preferAlt, answer) {
        FinishKeeps(hash, s, share, Rejected, [attempt]);
      }
  }

  lemma RetriedKeeps(hash: Digest, s: State, share: Share, first: Attempt, answer: Answer)
    requires Inv(hash, s) && s.main == Retrying(share, first)
    ensures Inv(hash, Retried(s, share, first, answer))
  {
    var attempts := [first, Attempt(!s.preferAlt, ActiveId(s), answer)];
    FinishKeeps(hash, s, share, if answer == Accept then Accepted else Rejected, attempts);
  }

  lemma PollingKeeps(hash: Digest, s: State, polled: Option<StratumJob>)
    requires Inv(hash, s) && s.main.Polling?
    ensures Inv(hash, if polled.Some? then NewJob(s, polled.value) else s.(main := Taking))
  {
    if polled.Some? {
      NewJobKeeps(hash, s, polled.value);
    }
  }

  lemma CheckingKeeps(hash: Digest, s: State, share: Share)
    requires Inv(hash, s) && s.main == Checking(share)
    ensures Inv(hash, if s.active.Some? && share.jobId != s.active.value.jobId then Finish(s, share, DroppedStale, [])
                      else s.(main := Submitting(share)))
  {
    ActiveInHand(hash, s);
    if share.jobId != s.active.value.jobId {
      FinishKeeps(hash, s, share, DroppedStale, []);
    }
  }

  lemma InHandKeeps(hash: Digest, s: State, answer: Answer)
    requires Inv(hash, s) && (s.main.Checking? || s.main.Submitting? || s.main.Retrying?)
    ensures Inv(hash, MainStep(s, None, answer))
  {
    match s.main
    case Checking(share) => CheckingKeeps(hash, s, share);
    case Submitting(share) => SubmittedKeeps(hash, s, share, answer);
    case Retrying(share, first) => RetriedKeeps(hash, s, share, first, answer);
  }

  lemma MainKeeps(hash: Digest, s: State, polled: Option<StratumJob>, answer: Answer)
    requires Inv(hash, s)
    ensures Inv(hash, MainStep(s, polled, answer))
  {
    match s.main
    case Polling => PollingKeeps(hash, s, polled);
    case Dropping => DroppingKeeps(hash, s);
    case Taking =>
      if s.pending != [] {
        TakingKeeps(hash, s);
      }
    case _ => InHandKeeps(hash, s, answer);
  }

  // ---- Workers ----

  lemma WorkerKeeps(hash: Digest, s: State, w: nat, leave: bool)
    requires Inv(hash, s) && w < |s.workers|
    ensures Inv(hash, WorkerStep(hash, s, w, leave))
  {
    var me := s.workers[w];
    match me.pc
    case Waiting =>
      WorkerMoves(hash, s, w, WorkerStep(hash, s, w, leave).workers[w]);
    case Looping =>
      WorkerMoves(hash, s, w, me.(pc := if leave || s.version != me.observed then Waiting else Trying));
    case Trying =>
      WorkerTries(hash, s, w);
    case Pushing(share) =>
      WorkerPushes(hash, s, w, share);
    case OutOfBounds =>
  }

  lemma WorkerMoves(hash: Digest, s: State, w: nat, me: Worker)
    requires Inv(hash, s) && w < |s.workers| && WorkerOk(hash, s.jobs, me)
    ensures Inv(hash, SetWorker(s, w, me))
  {
  }

  lemma WorkerTries(hash: Digest, s: State, w: nat)
    requires Inv(hash, s) && w < |s.workers| && s.workers[w].pc.Trying?
    ensures Inv(hash, WorkerStep(hash, s, w, false))
  {
    var me := s.workers[w];
    WorkerMoves(hash, s, w, AfterTrying(hash, me, me.job.value, |s.workers|));
  }

  lemma WorkerPushes(hash: Digest, s: State, w: nat, share: Share)
    requires Inv(hash, s) && w < |s.workers| && s.workers[w].pc == Pushing(share)
    ensures Inv(hash, WorkerStep(hash, s, w, false))
  {
    WorkerMoves(hash, s, w, s.workers[w].(pc := Looping));
    var t := WorkerStep(hash, s, w, false);
    assert t.found == Shares(s.handled) + (InHand(s.main) + (s.pending + [share]));
  }

  lemma {:induction false} RunKeeps(hash: Digest, start: State, events: seq<Event>)
    requires Initial(start)
    ensures Inv(hash, Execute(hash, start, events))
  {
    if events != [] {
      RunKeeps(hash, start, events[..|events| - 1]);
      var before := Execute(hash, start, events[..|events| - 1]);
      match events[|events| - 1]
      case Work(w, leave) =>
        if w < |before.workers| {
          WorkerKeeps(hash, before, w, leave);
        }
      case Main(polled, answer) => MainKeeps(hash, before, polled, answer);
    }
  }

  // ---- What every run keeps ----

  lemma {:induction false} CountsAddUp(handled: seq<Handled>)
    ensures |handled| == Count(handled, DroppedClean) + Count(handled, DroppedStale) + Count(handled, Failed)
                         + Count(handled, Accepted) + Count(handled, Rejected)
  {
    if handled != [] {
      CountsAddUp(handled[..|handled| - 1]);
    }
  }

  /** Share conservation: the shares found are, in order, those that have met their fate, the one in hand and those
      that are pending; each is counted once. */
  lemma SharesConserved(hash: Digest, start: State, events: seq<Event>)
    requires Initial(start)
    ensures var s := Execute(hash, start, events);
            && s.found == Shares(s.handled) + (InHand(s.main) + s.pending)
            && |s.found| == |s.pending| + |InHand(s.main)| + Count(s.handled, DroppedClean)
                            + Count(s.handled, DroppedStale) + Count(s.handled, Failed) + s.accepted + s.rejected
  {
    RunKeeps(hash, start, events);
    CountsAddUp(Execute(hash, start, events).handled);
  }

  /** The fate of a share says what happened, and only that: the job active when it was handled, and the pool's
      answers. */
  ghost predicate Deserved(h: Handled) {
    var n := |h.attempts|;
    && h.active.Some? && n <= 2
    && (h.fate == Accepted <==> n > 0 && h.attempts[n - 1].answer == Accept)
    && (h.fate == Failed <==> n == 1 && h.attempts[0].answer == NoAnswer)
    && (h.fate == Rejected <==> n > 0 && h.attempts[n - 1].answer != Accept
                                && !(n == 1 && h.attempts[0].answer == NoAnswer))
    && (h.fate == DroppedClean ==> h.active.value.cleanJobs)
    && (h.fate == DroppedStale <==> h.fate != DroppedClean && h.active.value.jobId != h.share.jobId)
  }

  lemma GoodIsDeserved(h: Handled)
    requires GoodFate(h)
    ensures Deserved(h)
  {
    match h.fate
    case DroppedClean =>
    case DroppedStale =>
    case Failed =>
    case Accepted =>
    case Rejected =>
  }

  lemma FatesAreDeserved(hash: Digest, start: State, events: seq<Event>, i: nat)
    requires Initial(start) && i < |Execute(hash, start, events).handled|
    ensures Deserved(Execute(hash, start, events).handled[i])
  {
    RunKeeps(hash, start, events);
    GoodIsDeserved(Execute(hash, start, events).handled[i]);
  }

  /** Whatever is submitted names the job active at that moment. A share is tried twice exactly if the first answer is
      a rejection for its difficulty and the other form of its nonce differs and is not empty, and then in that form.
      The form tried first is the preferred one, which is changed by every accepted second attempt and nothing else. */
  lemma SubmissionsAreGood(hash: Digest, start: State, events: seq<Event>)
    requires Initial(start)
    ensures var s := Execute(hash, start, events);
            && s.preferAlt == Flipped(s.handled) && FirstForms(s.handled)
            && (forall i :: 0 <= i < |s.handled| ==>
                  GoodAttempts(s.handled[i].share, s.handled[i].attempts)
                  && GoodTries(s.handled[i].share, s.handled[i].attempts))
            && (s.main.Retrying? ==>
                  && s.main.first.activeId == s.main.share.jobId && s.main.first.alt == s.preferAlt
                  && Retryable(s.main.share, s.preferAlt, s.main.first.answer))
  {
    RunKeeps(hash, start, events);
    var s := Execute(hash, start, events);
    assert forall i :: 0 <= i < |s.handled| ==> GoodFate(s.handled[i]);
  }

  // ---- A new job ----

  /** Steps of workers. */
  predicate WorkersOnly(events: seq<Event>) {
    forall i :: 0 <= i < |events| ==> events[i].Work?
  }

  lemma {:induction false} WorkersTouch(hash: Digest, s: State, events: seq<Event>)
    requires WorkersOnly(events)
    ensures var t := Execute(hash, s, events);
            && t.main == s.main && t.active == s.active && t.handled == s.handled
            && |t.pending| >= |s.pending| && t.pending[..|s.pending|] == s.pending
            && t.found == s.found + t.pending[|s.pending|..]
    decreases |events|
  {
    if events != [] {
      WorkersTouch(hash, s, events[..|events| - 1]);
    } else {
      assert s.found + s.pending[|s.pending|..] == s.found;
    }
  }

  /** A polled job is the active one from then on. A clean one drops every share that is pending when the queue is
      cleared, including those queued since, so that nothing found before is submitted; any other drops none. */
  lemma NewJobDrops(hash: Digest, start: State, before: seq<Event>, job: StratumJob, between: seq<Event>,
      answer: Answer)
    requires Initial(start) && Execute(hash, start, before).main.Polling? && WorkersOnly(between)
    ensures var s := Execute(hash, start, before);
            var t := Execute(hash, NewJob(s, job), between);
            && t.active == Some(job)
            && if job.cleanJobs
                 then var u := MainStep(t, None, answer);
                      u.main.Taking? && u.pending == [] && u.handled == t.handled + Dropped(t.pending, Some(job))
                      && Shares(u.handled) == u.found
               else t.main.Taking? && t.handled == s.handled && s.pending <= t.pending
  {
    var s := Execute(hash, start, before);
    RunKeeps(hash, start, before);
    MainKeeps(hash, s, Some(job), answer);
    WorkersTouch(hash, NewJob(s, job), between);
    var t := Execute(hash, NewJob(s, job), between);
    if job.cleanJobs {
      BetweenKeeps(hash, NewJob(s, job), between);
      DroppingKeeps(hash, t);
      var u := MainStep(t, None, answer);
      assert Shares(u.handled) + ([] + []) == Shares(u.handled);
    }
  }

  lemma {:induction false} BetweenKeeps(hash: Digest, s: State, events: seq<Event>)
    requires Inv(hash, s) && WorkersOnly(events)
    ensures Inv(hash, Execute(hash, s, events))
    decreases |events|
  {
    if events != [] {
      var n := |events| - 1;
      BetweenKeeps(hash, s, events[..n]);
      var t := Execute(hash, s, events[..n]);
      if events[n].w < |t.workers| {
        WorkerKeeps(hash, t, events[n].w, events[n].leave);
      }
    }
  }

  /** Every share in the queue, in hand or handled comes from a job of the pool and meets its target. */
  lemma SharesAreSound(hash: Digest, start: State, events: seq<Event>, share: Share)
    requires Initial(start) && share in Execute(hash, start, events).found
    ensures Sound(hash, Execute(hash, start, events).jobs, share)
  {
    RunKeeps(hash, start, events);
  }

  /** A worker writes outside its blob only for a job of the pool whose offset is within four of 2^32. */
  lemma OutOfBoundsMeans(hash: Digest, start: State, events: seq<Event>, w: nat)
    requires Initial(start) && w < |start.workers|
    ensures var s := Execute(hash, start, events);
            && |s.workers| == |start.workers|
            && (s.workers[w].pc == OutOfBounds ==>
                  && s.workers[w].job.Some? && s.workers[w].job.value in s.jobs
                  && s.workers[w].job.value.nonceOffset >= TWO_TO_THE_32 - 4)
  {
    RunKeeps(hash, start, events);
    SameWorkers(hash, start, events);
    var s := Execute(hash, start, events);
    assert WorkerOk(hash, s.jobs, s.workers[w]);
    if s.workers[w].pc == OutOfBounds {
      SeemsUsableMeans(s.workers[w].job.value);
    }
  }

  lemma {:induction false} SameWorkers(hash: Digest, start: State, events: seq<Event>)
    ensures |Execute(hash, start, events).workers| == |start.workers|
  {
    if events != [] {
      SameWorkers(hash, start, events[..|events| - 1]);
    }
  }

  lemma OneMoreEvent(hash: Digest, start: State, events: seq<Event>, e: Event)
    ensures Execute(hash, start, events + [e]) == Next(hash, Execute(hash, start, events), e)
  {
    assert (events + [e])[..|events|] == events;
  }

  /** Worker `w` has taken a job that passed the test without room. */
  predicate Mistaken(s: State, w: nat, job: StratumJob, pc: WorkerPc) {
    w < |s.workers| && s.workers[w].pc == pc && s.workers[w].job == Some(job) && s.workers[w].observed == s.version
  }

  lemma MistakenMoves(hash: Digest, s: State, w: nat, job: StratumJob)
    requires !Usable(job)
    ensures Mistaken(s, w, job, Looping) ==> Mistaken(WorkerStep(hash, s, w, false), w, job, Trying)
    ensures Mistaken(s, w, job, Trying) ==> Mistaken(WorkerStep(hash, s, w, false), w, job, OutOfBounds)
  {
  }

  lemma MistakenStarts(hash: Digest, start: State, w: nat, job: StratumJob)
    requires Initial(start) && w < |start.workers| && SeemsUsable(job)
    ensures Mistaken(WorkerStep(hash, NewJob(start, job), w, false), w, job, Looping)
  {
  }

  /** For every such job that passes the test without room, four steps lead to the write. */
  lemma WritesOutOfBounds(hash: Digest, start: State, w: nat, job: StratumJob) returns (events: seq<Event>)
    requires Initial(start) && w < |start.workers| && SeemsUsable(job) && !Usable(job)
    ensures |events| == 4 && Mistaken(Execute(hash, start, events), w, job, OutOfBounds)
  {
    var e := Work(w, false);
    events := [Main(Some(job), NoAnswer)];
    assert events[..0] == [];
    assert Execute(hash, start, events) == NewJob(start, job);
    MistakenStarts(hash, start, w, job);
    OneMoreEvent(hash, start, events, e);
    events := events + [e];
    MistakenMoves(hash, Execute(hash, start, events), w, job);
    OneMoreEvent(hash, start, events, e);
    events := events + [e];
    MistakenMoves(hash, Execute(hash, start, events), w, job);
    OneMoreEvent(hash, start, events, e);
    events := events + [e];
  }
}
