/** Jobs of a pool: one thread receives them, another one mines and submits. The receiving thread stores a job and
    counts it in two separate steps. */
module PoolJobs {
  import opened Machine
  import opened Chain

  datatype MinerPc =
    | Idle
    | Capturing                                    // saw a version other than zero
    | Captured(block: Block, version: nat)
    | Mining(block: Block, version: nat)
    | Checking(block: Block, version: nat)         // found a share; about to compare versions
    | Submitting(block: Block, version: nat)

  /** What is submitted, and how many jobs had been received when the check passed. */
  datatype Submission = Submission(block: Block, version: nat, received: nat)

  /** `received` and `submitted` are history: all jobs so far, and all submissions. */
  datatype State = State(
    latest: Option<Block>, version: nat, storing: bool, miner: MinerPc,
    prepared: Option<Block>, preparedVersion: nat,
    received: seq<Block>, submitted: seq<Submission>)

  const START := State(None, 0, false, Idle, None, 0, [], [])

  datatype Event =
    | Receive(block: Block)       // store the job under the lock
    | Count                       // bump the version
    | Step(found: bool)           // the miner's next step

  function Next(s: State, e: Event): State {
    match e
    case Receive(block) =>
      if s.storing then s else s.(latest := Some(block), storing := true, received := s.received + [block])
    case Count => if s.storing then s.(version := s.version + 1, storing := false) else s
    case Step(found) => MinerStep(s, found)
  }

  function MinerStep(s: State, found: bool): State {
    match s.miner
    case Idle => if s.version == 0 then s else s.(miner := Capturing)
    case Capturing =>
      if s.latest.None? || s.version == 0 then s.(miner := Idle)
      else s.(miner := Captured(s.latest.value, s.version))
    case Captured(block, version) =>
      if s.prepared.None? || s.preparedVersion != version
        then s.(prepared := Some(block), preparedVersion := version, miner := Mining(block, version))
      else s.(miner := Mining(s.prepared.value, version))
    case Mining(block, version) => s.(miner := if found then Checking(block, version) else Idle)
    case Checking(block, version) =>
      if s.version == version
        then s.(miner := Submitting(block, version),
                submitted := s.submitted + [Submission(block, version, |s.received|)])
      else s.(miner := Idle)
    case Submitting(_, _) => s.(miner := Idle)
  }

  function Execute(s: State, events: seq<Event>): State
    decreases |events|
  {
    if events == [] then s else Next(Execute(s, events[..|events| - 1]), events[|events| - 1])
  }

  // ---- Every run ----

  /** The block is received job number `version` or the one after it. */
  predicate Fresh(received: seq<Block>, block: Block, version: nat) {
    && 0 < version <= |received|
    && (block == received[version - 1] || (version < |received| && block == received[version]))
  }

  ghost predicate Inv(s: State) {
    && |s.received| == s.version + (if s.storing then 1 else 0)
    && (s.received == [] <==> s.latest == None)
    && (s.received != [] ==> s.latest == Some(s.received[|s.received| - 1]))
    && (s.prepared.Some? ==> Fresh(s.received, s.prepared.value, s.preparedVersion))
    && (s.miner.Captured? || s.miner.Mining? || s.miner.Checking? || s.miner.Submitting? ==>
          Fresh(s.received, s.miner.block, s.miner.version))
    && forall i :: 0 <= i < |s.submitted| ==>
         var sub := s.submitted[i];
         && Fresh(s.received, sub.block, sub.version) && sub.version <= sub.received <= sub.version + 1
         && sub.received <= |s.received|
         && Fresh(s.received[..sub.received], sub.block, sub.version)
  }

  lemma ReceiveKeeps(s: State, block: Block)
    requires Inv(s)
    ensures Inv(Next(s, Receive(block)))
  {
    var t := Next(s, Receive(block));
    if !s.storing {
      forall i | 0 <= i < |t.submitted|
        ensures var sub := t.submitted[i]; t.received[..sub.received] == s.received[..sub.received]
      {
        var sub := s.submitted[i];
        assert t.submitted[i] == sub;
      }
    }
  }

  lemma CheckKeeps(s: State, found: bool)
    requires Inv(s) && s.miner.Checking?
    ensures Inv(MinerStep(s, found))
  {
    assert s.received[..|s.received|] == s.received;
  }

  lemma CaptureKeeps(s: State, found: bool)
    requires Inv(s) && (s.miner.Capturing? || s.miner.Captured?)
    ensures Inv(MinerStep(s, found))
  {
  }

  lemma StepKeeps(s: State, found: bool)
    requires Inv(s)
    ensures Inv(MinerStep(s, found))
  {
    if s.miner.Checking? {
      CheckKeeps(s, found);
    } else if s.miner.Capturing? || s.miner.Captured? {
      CaptureKeeps(s, found);
    }
  }

  lemma {:induction false} RunKeeps(events: seq<Event>)
    ensures Inv(Execute(START, events))
  {
    if events != [] {
      var before := events[..|events| - 1];
      RunKeeps(before);
      match events[|events| - 1]
      case Receive(block) => ReceiveKeeps(Execute(START, before), block);
      case Count =>
      case Step(found) => StepKeeps(Execute(START, before), found);
    }
  }

  /** In every run, a share that passes the check at version `v` was prepared from received job number `v` or `v + 1`,
      and no more than one newer job had been received by then. */
  lemma SubmissionsAreFresh(events: seq<Event>, i: nat)
    requires i < |Execute(START, events).submitted|
    ensures var s := Execute(START, events);
            var sub := s.submitted[i];
            && 0 < sub.version <= sub.received <= sub.version + 1 && sub.received <= |s.received|
            && (sub.block == s.received[sub.version - 1]
                || (sub.received == sub.version + 1 && sub.block == s.received[sub.version]))
  {
    RunKeeps(events);
  }

  // ---- One block for each version ----

  /** What is mined is the block prepared last, and nothing submitted is of a later version, nor of another block of
      that version. */
  ghost predicate Cached(s: State) {
    && (s.prepared.Some? ==> s.preparedVersion <= s.version)
    && (s.miner.Captured? && s.prepared.Some? ==> s.preparedVersion <= s.miner.version)
    && (s.miner.Captured? ==> s.miner.version <= s.version)
    && (s.miner.Mining? || s.miner.Checking? || s.miner.Submitting? ==>
          s.prepared == Some(s.miner.block) && s.preparedVersion == s.miner.version)
    && (s.submitted != [] ==> s.prepared.Some? && AllBefore(s.submitted, s.prepared.value, s.preparedVersion))
    && InTurn(s.submitted)
  }

  ghost predicate AllBefore(submitted: seq<Submission>, block: Block, version: nat) {
    forall i :: 0 <= i < |submitted| ==> Before(submitted[i], block, version)
  }

  predicate Before(sub: Submission, block: Block, version: nat) {
    sub.version <= version && (sub.version == version ==> sub.block == block)
  }

  ghost predicate InTurn(submitted: seq<Submission>) {
    forall i, j :: 0 <= i < j < |submitted| ==> Before(submitted[i], submitted[j].block, submitted[j].version)
  }

  lemma {:induction false} RunIsCached(events: seq<Event>)
    ensures Cached(Execute(START, events))
  {
    if events != [] {
      var before := events[..|events| - 1];
      RunIsCached(before);
      StepIsCached(Execute(START, before), events[|events| - 1]);
    }
  }

  lemma StepIsCached(s: State, e: Event)
    requires Cached(s)
    ensures Cached(Next(s, e))
  {
    if e.Step? && s.miner.Checking? {
      CheckIsCached(s, e.found);
    } else {
      var t := Next(s, e);
      assert t.submitted == s.submitted;
    }
  }

  lemma CheckIsCached(s: State, found: bool)
    requires Cached(s) && s.miner.Checking?
    ensures Cached(MinerStep(s, found))
  {
    var sub := Submission(s.miner.block, s.miner.version, |s.received|);
    InTurnSnoc(s.submitted, sub);
  }

  lemma InTurnSnoc(submitted: seq<Submission>, sub: Submission)
    requires InTurn(submitted) && AllBefore(submitted, sub.block, sub.version)
    ensures InTurn(submitted + [sub]) && AllBefore(submitted + [sub], sub.block, sub.version)
  {
  }

  /** In every run, submissions of one version are of one block, and versions do not go back. */
  lemma OneBlockPerVersion(events: seq<Event>, i: nat, j: nat)
    requires i < j < |Execute(START, events).submitted|
    ensures var (a, b) := (Execute(START, events).submitted[i], Execute(START, events).submitted[j]);
            a.version <= b.version && (a.version == b.version ==> a.block == b.block)
  {
    RunIsCached(events);
  }

  // ---- Only what is found is submitted ----

  /** The number of shares found: the steps of the miner, while mining, that found one. */
  function Finds(events: seq<Event>): nat {
    if events == [] then 0
    else
      var before := events[..|events| - 1];
      Finds(before) + (if events[|events| - 1] == Step(true) && Execute(START, before).miner.Mining? then 1 else 0)
  }

  /** The number of shares found that were dropped, because the version had changed by the time of the check. */
  function Stale(events: seq<Event>): nat {
    if events == [] then 0
    else
      var (before, e) := (events[..|events| - 1], events[|events| - 1]);
      var s := Execute(START, before);
      Stale(before) + (if e.Step? && s.miner.Checking? && s.miner.version != s.version then 1 else 0)
  }

  /** In every run, every share found is submitted once, or dropped as stale, or about to be checked. */
  lemma {:induction false} FindsConserved(events: seq<Event>)
    ensures var s := Execute(START, events);
            Finds(events) == |s.submitted| + Stale(events) + (if s.miner.Checking? then 1 else 0)
  {
    if events != [] {
      FindsConserved(events[..|events| - 1]);
    }
  }

  // ---- Both cases happen ----

  lemma Extend(events: seq<Event>, s: State, e: Event) returns (longer: seq<Event>, t: State)
    requires s == Execute(START, events)
    ensures t == Next(s, e) == Execute(START, longer)
  {
    longer, t := events + [e], Next(s, e);
    assert longer[..|events|] == events;
  }

  /** A job newer than the version can be mined under that version, and so can the older one once a newer one is
      stored: "job `v` is mined under version `v`" holds in no stronger form. */
  lemma NewerJobUnderOlderVersion(a: Block, b: Block) returns (newer: seq<Event>, older: seq<Event>)
    requires a != b
    ensures Execute(START, newer).submitted == [Submission(b, 1, 2)]
    ensures Execute(START, older).submitted == [Submission(a, 1, 2)]
    ensures Execute(START, newer).received == Execute(START, older).received == [a, b]
  {
    var first, s := Extend([], START, Receive(a));
    first, s := Extend(first, s, Count);
    assert s == START.(latest := Some(a), version := 1, received := [a]);
    newer := StoredBeforeCapture(a, b, first, s);
    older := StoredBeforeCheck(a, b, first, s);
  }

  lemma StoredBeforeCapture(a: Block, b: Block, first: seq<Event>, s: State) returns (events: seq<Event>)
    requires s == Execute(START, first) == START.(latest := Some(a), version := 1, received := [a])
    ensures Execute(START, events).submitted == [Submission(b, 1, 2)]
    ensures Execute(START, events).received == [a, b]
  {
    var t;
    events, t := Extend(first, s, Receive(b));
    events, t := Extend(events, t, Step(true));
    events, t := Extend(events, t, Step(true));
    assert t.miner == Captured(b, 1);
    events, t := Extend(events, t, Step(true));
    assert t.miner == Mining(b, 1);
    events, t := Extend(events, t, Step(true));
    events, t := Extend(events, t, Step(true));
  }

  lemma StoredBeforeCheck(a: Block, b: Block, first: seq<Event>, s: State) returns (events: seq<Event>)
    requires s == Execute(START, first) == START.(latest := Some(a), version := 1, received := [a])
    ensures Execute(START, events).submitted == [Submission(a, 1, 2)]
    ensures Execute(START, events).received == [a, b]
  {
    var t;
    events, t := MinedFirst(a, first, s);
    events, t := Extend(events, t, Receive(b));
    events, t := Extend(events, t, Step(true));
    events, t := Extend(events, t, Step(true));
  }

  lemma MinedFirst(a: Block, first: seq<Event>, s: State) returns (events: seq<Event>, t: State)
    requires s == Execute(START, first) == START.(latest := Some(a), version := 1, received := [a])
    ensures t == Execute(START, events) && t.miner == Mining(a, 1)
    ensures t.submitted == [] && t.received == [a] && t.version == 1 && !t.storing
  {
    events, t := Extend(first, s, Step(true));
    events, t := Extend(events, t, Step(true));
    assert t.miner == Captured(a, 1);
    events, t := Extend(events, t, Step(true));
  }
}
