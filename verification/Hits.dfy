/** What a worker looks for: the first nonce of a progression whose hash meets a target. */
module Hits {
  import opened Machine
  import opened Radix
  import opened Target

  /** Every `step`-th nonce from `start`, modulo 2^64. */
  datatype Task = Task(hashOf: u64 -> Bytes32, target: Bytes32, start: u64, step: u32)

  datatype Found = Found(nonce: u64, hash: Bytes32)

  function NonceAt(task: Task, k: nat): u64 {
    if k == 0 then task.start else (NonceAt(task, k - 1) + task.step) % TWO_TO_THE_64
  }

  function FoundAt(task: Task, k: nat): Found {
    Found(NonceAt(task, k), task.hashOf(NonceAt(task, k)))
  }

  predicate Hit(task: Task, k: nat) {
    Meets(FoundAt(task, k).hash, task.target)
  }

  /** The first of the nonces numbered below `count` whose hash meets the target. */
  function FirstHit(task: Task, count: nat): (index: Option<nat>)
    ensures index.None? ==> forall k :: 0 <= k < count ==> !Hit(task, k)
    ensures index.Some? ==> index.value < count && Hit(task, index.value)
                            && forall k :: 0 <= k < index.value ==> !Hit(task, k)
  {
    if count == 0 then None
    else if FirstHit(task, count - 1).Some? then FirstHit(task, count - 1)
    else if Hit(task, count - 1) then Some(count - 1)
    else None
  }

  function Outcome(task: Task, count: nat): (outcome: Option<Found>)
    ensures outcome.Some? <==> FirstHit(task, count).Some?
  {
    if FirstHit(task, count).Some? then Some(FoundAt(task, FirstHit(task, count).value)) else None
  }

  /** A longer search does not change what a shorter one found. */
  lemma {:induction false} FirstHitStays(task: Task, m: nat, n: nat)
    requires m <= n && FirstHit(task, m).Some?
    ensures FirstHit(task, n) == FirstHit(task, m)
  {
    if m < n {
      FirstHitStays(task, m, n - 1);
    }
  }

  /** One more nonce. */
  lemma OneMore(task: Task, count: nat)
    requires FirstHit(task, count).None?
    ensures Outcome(task, count + 1) == if Hit(task, count) then Some(FoundAt(task, count)) else None
  {
  }

  lemma OutcomeStays(task: Task, m: nat, n: nat)
    requires m <= n && FirstHit(task, m).Some?
    ensures Outcome(task, n) == Outcome(task, m)
  {
    FirstHitStays(task, m, n);
  }

  lemma {:induction false} SameNonces(a: Task, b: Task, k: nat)
    requires a.start == b.start && a.step == b.step
    ensures NonceAt(a, k) == NonceAt(b, k)
  {
    if k > 0 {
      SameNonces(a, b, k - 1);
    }
  }

  /** Searches over the same nonces with the same hashes find the same hits. */
  lemma {:induction false} SameHashesSameHits(a: Task, b: Task, count: nat)
    requires a.target == b.target && a.start == b.start && a.step == b.step
    requires forall k :: 0 <= k < count ==> a.hashOf(NonceAt(a, k)) == b.hashOf(NonceAt(a, k))
    ensures FirstHit(a, count) == FirstHit(b, count)
    ensures Outcome(a, count) == Outcome(b, count)
  {
    if count > 0 {
      SameHashesSameHits(a, b, count - 1);
      SameNonces(a, b, count - 1);
      if FirstHit(a, count).Some? {
        SameNonces(a, b, FirstHit(a, count).value);
      }
    }
  }

  /** How many passes through the loop share one look at the control flags. */
  const CONTROL_CHECK_INTERVAL: nat := 16

  // ---- Nonces of all the workers ----

  lemma OneStepMore(k: nat, step: nat)
    requires k > 0
    ensures (k - 1) * step + step == k * step
  {
  }

  lemma {:induction false} NonceIs(task: Task, k: nat)
    ensures NonceAt(task, k) == (task.start + k * task.step) % TWO_TO_THE_64
  {
    if k > 0 {
      NonceIs(task, k - 1);
      AddModulo(task.start + (k - 1) * task.step, task.step);
      OneStepMore(k, task.step);
    }
  }

  /** Worker `id` of `task.step` workers. */
  function WorkerTask(task: Task, id: nat): Task {
    task.(start := (task.start + id) % TWO_TO_THE_64)
  }

  lemma WorkerNonce(task: Task, id: nat, k: nat)
    requires id < task.step
    ensures NonceAt(WorkerTask(task, id), k) == (task.start + (k * task.step + id)) % TWO_TO_THE_64
  {
    NonceIs(WorkerTask(task, id), k);
    var shift := k * task.step;
    AddModulo(task.start + id, shift);
    assert task.start + id + shift == task.start + (shift + id);
  }

  /** The distance from the first nonce, when nothing wraps. */
  lemma UnwrappedNonce(task: Task, id: nat, k: nat, distance: int)
    requires id < task.step && distance == k * task.step + id && task.start + distance < TWO_TO_THE_64
    ensures NonceAt(WorkerTask(task, id), k) == task.start + distance && distance >= 0
  {
    WorkerNonce(task, id, k);
    NonNegative(k, task.step);
  }

  lemma NonNegative(a: nat, b: nat)
    ensures a * b >= 0
  {
  }

  /** As long as nothing wraps, no nonce is tried twice, neither by two workers nor by one. */
  lemma NoncesDisjoint(task: Task, i: nat, j: nat, a: nat, b: nat)
    requires i < task.step && j < task.step
    requires task.start + (a * task.step + i) < TWO_TO_THE_64 && task.start + (b * task.step + j) < TWO_TO_THE_64
    ensures NonceAt(WorkerTask(task, i), a) == NonceAt(WorkerTask(task, j), b) <==> i == j && a == b
    ensures task.start <= NonceAt(WorkerTask(task, i), a)
  {
    UnwrappedNonce(task, i, a, a * task.step + i);
    UnwrappedNonce(task, j, b, b * task.step + j);
    if NonceAt(WorkerTask(task, i), a) == NonceAt(WorkerTask(task, j), b) {
      DivModUnique(task.step, a, i, b, j);
    }
  }

  lemma Split(n: nat, d: nat) returns (rest: nat, quotient: nat)
    requires d > 0
    ensures rest < d && n == quotient * d + rest
  {
    if n < d {
      rest, quotient := n, 0;
    } else {
      rest, quotient := Split(n - d, d);
      quotient := quotient + 1;
    }
  }

  /** Together the workers reach every nonce from the first one up. */
  lemma NoncesCovered(task: Task, nonce: u64) returns (id: nat, k: nat)
    requires task.step > 0 && task.start <= nonce
    ensures id < task.step && NonceAt(WorkerTask(task, id), k) == nonce
  {
    var distance: nat := nonce - task.start;
    id, k := Split(distance, task.step);
    UnwrappedNonce(task, id, k, distance);
  }
}
