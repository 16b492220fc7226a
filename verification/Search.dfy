/** The search of one worker: three ways to try nonces, all of which find the same first hit. */
module Search {
  import opened Machine
  import opened Chain
  import opened Bincode
  import opened PowBuffer
  import opened Target
  import opened Hits

  /** How the bytes hashed for a nonce come about. */
  datatype Candidates =
    | Patching(template: seq<byte>, offset: nat)
    | EncodingBlock(sha: Digest, block: Block)
    | EncodingTransaction(tx: Transaction)

  predicate WellFormed(c: Candidates) {
    c.Patching? ==> CanPatch(c.template, c.offset)
  }

  function Bytes(c: Candidates, nonce: u64): seq<byte>
    requires WellFormed(c)
  {
    match c
    case Patching(template, offset) => Patched(template, offset, nonce)
    case EncodingBlock(sha, block) => BlockPow(sha, block.(nonce := nonce))
    case EncodingTransaction(tx) => TransactionPow(tx.(nonce := nonce))
  }

  /** A search over these candidates. */
  ghost predicate Hashes(task: Task, hash: Digest, c: Candidates) {
    WellFormed(c) && forall n: u64 {:trigger Bytes(c, n)} :: task.hashOf(n) == hash(Bytes(c, n))
  }

  // ---- The three forms agree ----

  function BlockTemplate(sha: Digest, block: Block): Candidates {
    Patching(BlockPow(sha, block), BlockNonceOffset(block))
  }

  function TransactionTemplate(tx: Transaction): Candidates {
    Patching(TransactionPow(tx), |TxHeader(tx)|)
  }

  lemma BlockBytesAgree(sha: Digest, block: Block, n: u64)
    requires block.nonce >= TWO_TO_THE_32
    ensures WellFormed(BlockTemplate(sha, block))
    ensures Bytes(BlockTemplate(sha, block), n) == Bytes(EncodingBlock(sha, block), n) <==> n >= TWO_TO_THE_32
  {
    BlockPatch(sha, block, n);
  }

  lemma TransactionBytesAgree(tx: Transaction, n: u64)
    requires tx.nonce >= TWO_TO_THE_32
    ensures WellFormed(TransactionTemplate(tx))
    ensures Bytes(TransactionTemplate(tx), n) == Bytes(EncodingTransaction(tx), n) <==> n >= TWO_TO_THE_32
  {
    TransactionPatch(tx, n);
  }

  /** Patching a template finds what encoding each candidate finds, as long as no nonce tried is below 2^32. */
  lemma FormsAgree(hash: Digest, fast: Task, slow: Task, template: Candidates, encoding: Candidates, count: nat)
    requires Hashes(fast, hash, template) && Hashes(slow, hash, encoding)
    requires slow == fast.(hashOf := slow.hashOf)
    requires forall k :: 0 <= k < count ==> NonceAt(fast, k) >= TWO_TO_THE_32
    requires match encoding
             case Patching(_, _) => false
             case EncodingBlock(sha, block) => block.nonce >= TWO_TO_THE_32 && template == BlockTemplate(sha, block)
             case EncodingTransaction(tx) => tx.nonce >= TWO_TO_THE_32 && template == TransactionTemplate(tx)
    ensures Outcome(fast, count) == Outcome(slow, count)
  {
    forall k | 0 <= k < count
      ensures fast.hashOf(NonceAt(fast, k)) == slow.hashOf(NonceAt(fast, k))
    {
      match encoding
      case EncodingBlock(sha, block) => BlockBytesAgree(sha, block, NonceAt(fast, k));
      case EncodingTransaction(tx) => TransactionBytesAgree(tx, NonceAt(fast, k));
    }
    SameHashesSameHits(fast, slow, count);
  }

  // ---- The hashing pipeline ----

  /** Overlapped hashing. The buffer handed over last must stay as it is until the next call. */
  class HashPipeline {
    const hash: Digest
    var hasPending: bool
    var pendingHash: Bytes32
    ghost var pending: seq<byte>
    ghost var source: array?<byte>

    ghost predicate Valid()
      reads this, source
    {
      hasPending ==> pendingHash == hash(pending) && source != null && source[..] == pending
    }

    constructor (hash: Digest)
      ensures Valid() && this.hash == hash && !hasPending
    {
      this.hash := hash;
      hasPending := false;
      source := null;
    }

    method Begin(data: array<byte>)
      modifies this
      ensures Valid() && hasPending && source == data && pending == data[..]
    {
      pendingHash := hash(data[..]);
      hasPending := true;
      pending, source := data[..], data;
    }

    method Next(data: array<byte>) returns (out: Option<Bytes32>)
      requires Valid()
      modifies this
      ensures Valid() && hasPending == old(hasPending)
      ensures old(hasPending) ==> out == Some(hash(old(pending))) && source == data && pending == data[..]
      ensures !old(hasPending) ==> out == None
    {
      if !hasPending {
        return None;
      }
      out := Some(pendingHash);
      pendingHash := hash(data[..]);
      pending, source := data[..], data;
    }

    method Last() returns (out: Option<Bytes32>)
      requires Valid()
      modifies this
      ensures Valid() && !hasPending
      ensures out == if old(hasPending) then Some(hash(old(pending))) else None
    {
      if !hasPending {
        return None;
      }
      hasPending := false;
      out := Some(pendingHash);
    }
  }

  // ---- Batches ----

  const BATCH_MIN: u32 := 4
  const BATCH_MAX: u32 := 32
  const BATCH_DEFAULT: u32 := 16

  /** The default for zero, and otherwise the allowed size nearest to the configured one. */
  function ClampPipelineBatch(batch: u32): (clamped: u32)
    ensures BATCH_MIN <= clamped <= BATCH_MAX
    ensures batch == 0 ==> clamped == BATCH_DEFAULT
    ensures batch > 0 ==> forall other: u32 | BATCH_MIN <= other <= BATCH_MAX ::
                            Distance(clamped, batch) <= Distance(other, batch)
  {
    if batch == 0 then BATCH_DEFAULT
    else if batch < BATCH_MIN then BATCH_MIN
    else if batch > BATCH_MAX then BATCH_MAX
    else batch
  }

  /** A copy of the template in which only the nonce may differ. */
  ghost predicate Holds(buffer: seq<byte>, template: seq<byte>, offset: nat) {
    && CanPatch(template, offset) && |buffer| == |template| && buffer[offset] == 253
    && buffer[..offset] == template[..offset] && buffer[offset + 9..] == template[offset + 9..]
  }

  /** A search over the template with the nonce replaced. */
  ghost predicate HashesPatched(task: Task, hash: Digest, template: seq<byte>, offset: nat) {
    CanPatch(template, offset) && Hashes(task, hash, Patching(template, offset))
  }

  method SetNonce(ghost task: Task, ghost hash: Digest, buffer: array<byte>, ghost template: seq<byte>, offset: nat,
      nonce: u64)
    requires HashesPatched(task, hash, template, offset) && Holds(buffer[..], template, offset)
    modifies buffer
    ensures Holds(buffer[..], template, offset) && hash(buffer[..]) == task.hashOf(nonce)
  {
    ghost var before := buffer[..];
    WriteNonceLe(buffer, offset + 1, nonce);
    Written(before, buffer[..], template, offset, nonce);
    assert buffer[..] == Bytes(Patching(template, offset), nonce);
  }

  lemma Written(before: seq<byte>, after: seq<byte>, template: seq<byte>, offset: nat, nonce: u64)
    requires Holds(before, template, offset)
    requires after == before[..offset + 1] + LittleEndian(nonce, 8) + before[offset + 1 + 8..]
    ensures Holds(after, template, offset) && after == Patched(template, offset, nonce)
  {
    assert before[..offset + 1] == before[..offset] + [253];
    assert after == before[..offset] + ([253] + LittleEndian(nonce, 8) + before[offset + 9..]);
  }

  /** The nonces that are next in line. */
  ghost predicate Progression(task: Task, tried: nat, nonces: seq<u64>) {
    forall k :: 0 <= k < |nonces| ==> nonces[k] == NonceAt(task, tried + k)
  }

  method BatchNonces(task: Task, ghost tried: nat, nonce: u64, batch: u32) returns (nonces: array<u64>, next: u64)
    requires batch <= BATCH_MAX && nonce == NonceAt(task, tried)
    ensures fresh(nonces) && nonces.Length == BATCH_MAX
    ensures Progression(task, tried, nonces[..batch])
    ensures next == NonceAt(task, tried + batch)
  {
    nonces := new u64[BATCH_MAX](_ => 0);
    next := nonce;
    for count := 0 to batch
      invariant forall k :: 0 <= k < count ==> nonces[k] == NonceAt(task, tried + k)
      invariant next == NonceAt(task, tried + count)
    {
      nonces[count] := next;
      next := (next + task.step) % TWO_TO_THE_64;
    }
  }

  /** A buffer with the given hash is in the pipeline. */
  ghost predicate Outstanding(pipe: HashPipeline, buffer: array<byte>, h: Bytes32)
    reads pipe, pipe.source
  {
    pipe.Valid() && pipe.hasPending && pipe.source == buffer && pipe.hash(pipe.pending) == h
  }

  /** Hands over the first buffer of a batch. */
  method Prime(ghost task: Task, ghost template: seq<byte>, pipe: HashPipeline, local: array<byte>, offset: nat,
      nonce: u64)
    requires HashesPatched(task, pipe.hash, template, offset) && Holds(local[..], template, offset)
    modifies pipe, local
    ensures Holds(local[..], template, offset)
    ensures pipe.Valid() && pipe.hasPending && pipe.source == local && pipe.hash(pipe.pending) == task.hashOf(nonce)
  {
    SetNonce(task, pipe.hash, local, template, offset, nonce);
    pipe.Begin(local);
  }

  /** Hands over the next buffer and looks at the hash of the one before. */
  method PipelinedStep(task: Task, ghost template: seq<byte>, ghost tried: nat, pipe: HashPipeline,
      nextBuffer: array<byte>, offset: nat, previous: u64, nonce: u64) returns (found: Option<Found>)
    requires HashesPatched(task, pipe.hash, template, offset) && Holds(nextBuffer[..], template, offset)
    requires pipe.Valid() && pipe.hasPending && pipe.source != nextBuffer
    requires previous == NonceAt(task, tried) && Outcome(task, tried).None?
    requires pipe.hash(pipe.pending) == task.hashOf(previous)
    modifies pipe, nextBuffer
    ensures Holds(nextBuffer[..], template, offset)
    ensures pipe.Valid() && pipe.hasPending && pipe.source == nextBuffer
    ensures pipe.hash(pipe.pending) == task.hashOf(nonce)
    ensures found == Outcome(task, tried + 1)
  {
    SetNonce(task, pipe.hash, nextBuffer, template, offset, nonce);
    var out := pipe.Next(nextBuffer);
    found := Look(task, tried, previous, out.value);
  }

  /** The same with the buffer whose turn it is, while the other one is outstanding. */
  method PipelinedTurn(task: Task, ghost template: seq<byte>, ghost tried: nat, pipe: HashPipeline, local: array<byte>,
      second: array<byte>, offset: nat, even: bool, previous: u64, nonce: u64) returns (found: Option<Found>)
    requires HashesPatched(task, pipe.hash, template, offset) && local != second
    requires Holds(local[..], template, offset) && Holds(second[..], template, offset)
    requires Outstanding(pipe, if even then second else local, task.hashOf(previous))
    requires previous == NonceAt(task, tried) && Outcome(task, tried).None?
    modifies pipe, local, second
    ensures Holds(local[..], template, offset) && Holds(second[..], template, offset)
    ensures Outstanding(pipe, if even then local else second, task.hashOf(nonce))
    ensures found == Outcome(task, tried + 1)
  {
    var nextBuffer := if even then local else second;
    found := PipelinedStep(task, template, tried, pipe, nextBuffer, offset, previous, nonce);
  }

  /** All but the last hash of a batch, with two buffers in turn. */
  method PipelinedLoop(task: Task, ghost template: seq<byte>, ghost tried: nat, pipe: HashPipeline, local: array<byte>,
      second: array<byte>, offset: nat, nonces: seq<u64>)
      returns (found: Option<Found>, hashes: nat, ghost seen: nat)
    requires HashesPatched(task, pipe.hash, template, offset) && local != second && nonces != []
    requires Holds(local[..], template, offset) && Holds(second[..], template, offset)
    requires Progression(task, tried, nonces)
    requires pipe.Valid() && pipe.hasPending && pipe.source == local
    requires pipe.hash(pipe.pending) == task.hashOf(nonces[0])
    requires Outcome(task, tried).None?
    modifies pipe, local, second
    ensures Holds(local[..], template, offset) && Holds(second[..], template, offset)
    ensures pipe.Valid() && pipe.hasPending && hashes < |nonces|
    ensures seen == tried + hashes && found == Outcome(task, seen)
    ensures found.None? ==> hashes == |nonces| - 1 && pipe.hash(pipe.pending) == task.hashOf(nonces[hashes])
  {
    found, hashes := None, 0;
    var i := 1;
    seen := tried;
    while i < |nonces|
      invariant 1 <= i <= |nonces| && hashes == i - 1 && found == None && seen == tried + hashes
      invariant Holds(local[..], template, offset) && Holds(second[..], template, offset)
      invariant Outstanding(pipe, if i % 2 == 0 then second else local, task.hashOf(nonces[i - 1]))
      invariant Outcome(task, seen).None?
    {
      found := PipelinedTurn(
        task, template, seen, pipe, local, second, offset, i % 2 == 0, nonces[i - 1], nonces[i]);
      seen := seen + 1;
      hashes := hashes + 1;
      if found.Some? {
        break;
      }
      i := i + 1;
    }
  }

  /** A batch through the pipeline, which is drained afterwards. */
  method PipelinedBatch(task: Task, ghost template: seq<byte>, ghost tried: nat, pipe: HashPipeline, local: array<byte>,
      second: array<byte>, offset: nat, nonce: u64, configured: u32)
      returns (found: Option<Found>, next: u64, hashes: nat)
    requires HashesPatched(task, pipe.hash, template, offset) && local != second
    requires Holds(local[..], template, offset) && Holds(second[..], template, offset)
    requires nonce == NonceAt(task, tried) && Outcome(task, tried).None?
    modifies pipe, local, second
    ensures Holds(local[..], template, offset) && Holds(second[..], template, offset)
    ensures pipe.Valid() && !pipe.hasPending
    ensures var batch := ClampPipelineBatch(configured);
            && found == Outcome(task, tried + batch) && next == NonceAt(task, tried + batch)
            && hashes <= batch && (found == None ==> hashes == batch)
  {
    var batch := ClampPipelineBatch(configured);
    var nonces;
    nonces, next := BatchNonces(task, tried, nonce, batch);
    var used := nonces[..batch];
    Prime(task, template, pipe, local, offset, used[0]);
    ghost var seen;
    found, hashes, seen := PipelinedLoop(task, template, tried, pipe, local, second, offset, used);
    found := Drain(task, tried + batch, seen, pipe, found, used[batch - 1]);
    hashes := hashes + 1;
  }

  /** Takes the last hash of a batch that ends at `end` out of the pipeline, and looks at it if nothing is found yet. */
  method Drain(task: Task, ghost end: nat, ghost seen: nat, pipe: HashPipeline, sofar: Option<Found>, nonce: u64)
      returns (found: Option<Found>)
    requires pipe.Valid() && pipe.hasPending && seen <= end && sofar == Outcome(task, seen)
    requires sofar.None? ==> end == seen + 1 && nonce == NonceAt(task, seen)
                             && pipe.hash(pipe.pending) == task.hashOf(nonce)
    modifies pipe
    ensures pipe.Valid() && !pipe.hasPending && found == Outcome(task, end)
  {
    var last := pipe.Last();
    if sofar.Some? {
      OutcomeStays(task, seen, end);
      found := sofar;
    } else {
      found := Look(task, seen, nonce, last.value);
    }
  }

  /** Compares the hash of the next nonce in line with the target. */
  method Look(task: Task, ghost tried: nat, nonce: u64, h: Bytes32) returns (found: Option<Found>)
    requires nonce == NonceAt(task, tried) && h == task.hashOf(nonce) && Outcome(task, tried).None?
    ensures found == Outcome(task, tried + 1)
  {
    OneMore(task, tried);
    var meets := HashMeetsTarget(h, task.target);
    found := if meets then Some(Found(nonce, h)) else None;
  }

  /** One nonce, patched into the buffer. */
  method PatchedStep(task: Task, hash: Digest, ghost template: seq<byte>, ghost tried: nat, local: array<byte>,
      offset: nat, nonce: u64) returns (found: Option<Found>, next: u64)
    requires HashesPatched(task, hash, template, offset) && Holds(local[..], template, offset)
    requires nonce == NonceAt(task, tried) && Outcome(task, tried).None?
    modifies local
    ensures Holds(local[..], template, offset)
    ensures found == Outcome(task, tried + 1) && next == NonceAt(task, tried + 1)
  {
    SetNonce(task, hash, local, template, offset, nonce);
    var h := hash(local[..]);
    next := (nonce + task.step) % TWO_TO_THE_64;
    StepBack(nonce, task.step);
    found := Look(task, tried, (next - task.step) % TWO_TO_THE_64, h);
  }

  /** One nonce, encoded from scratch; on a hit the nonce stays. */
  method SlowStep(task: Task, hash: Digest, c: Candidates, ghost tried: nat, nonce: u64)
      returns (found: Option<Found>, next: u64)
    requires Hashes(task, hash, c) && !c.Patching?
    requires nonce == NonceAt(task, tried) && Outcome(task, tried).None?
    ensures found == Outcome(task, tried + 1)
    ensures next == if found.Some? then nonce else NonceAt(task, tried + 1)
  {
    var h := HashEncoded(task, hash, c, nonce);
    found := Look(task, tried, nonce, h);
    next := if found.Some? then nonce else (nonce + task.step) % TWO_TO_THE_64;
  }

  method HashEncoded(ghost task: Task, hash: Digest, c: Candidates, nonce: u64) returns (h: Bytes32)
    requires Hashes(task, hash, c) && !c.Patching?
    ensures h == task.hashOf(nonce)
  {
    var buffer, offset;
    if c.EncodingBlock? {
      buffer, offset := BlockPowBuffer(c.sha, c.block.(nonce := nonce));
    } else {
      buffer, offset := TransactionPowBuffer(c.tx.(nonce := nonce));
    }
    assert buffer == Bytes(c, nonce);
    h := hash(buffer);
  }

  lemma StepBack(nonce: u64, step: u32)
    ensures ((nonce + step) % TWO_TO_THE_64 - step) % TWO_TO_THE_64 == nonce
  {
  }

  // ---- The loop of one worker ----

  /** What a look at the control flags says. */
  datatype Control = Go | Pause | Leave

  /** What a worker hashes: the patched template if it can be patched, and encodings from scratch otherwise. */
  ghost function Used(template: seq<byte>, offset: nat, slow: Candidates): Candidates {
    if CanPatch(template, offset) then Patching(template, offset) else slow
  }

  /** Everything a worker carries from one iteration to the next. */
  class Searcher {
    const task: Task
    const hash: Digest
    ghost const template: seq<byte>
    const offset: nat
    const slow: Candidates
    const fast: bool
    const local: array<byte>
    const second: array<byte>
    const pipe: HashPipeline
    var nonce: u64
    ghost var tried: nat

    ghost predicate Valid()
      reads this, local, second, pipe, pipe.source
    {
      && local != second && pipe.hash == hash && !pipe.hasPending
      && fast == CanPatch(template, offset)
      && (fast ==> HashesPatched(task, hash, template, offset)
                   && Holds(local[..], template, offset) && Holds(second[..], template, offset))
      && (!fast ==> Hashes(task, hash, slow) && !slow.Patching?)
      && nonce == NonceAt(task, tried) && Outcome(task, tried).None?
    }

    constructor (task: Task, hash: Digest, template: seq<byte>, offset: nat, slow: Candidates)
      requires Hashes(task, hash, Used(template, offset, slow)) && !slow.Patching?
      ensures Valid() && fresh(local) && fresh(second) && fresh(pipe) && tried == 0
      ensures this.task == task && fast == CanPatch(template, offset)
    {
      this.task, this.hash, this.template, this.offset, this.slow := task, hash, template, offset, slow;
      var first := new byte[|template|](i requires 0 <= i < |template| => template[i]);
      assert first[..] == template;
      var patched := PatchNonce(first, offset, task.start);
      var copy := new byte[first.Length](i requires 0 <= i < first.Length reads first => first[i]);
      assert copy[..] == first[..];
      local, second, fast := first, copy, patched;
      pipe := new HashPipeline(hash);
      nonce, tried := task.start, 0;
      new;
      if patched {
        PatchedHolds(template, offset, task.start);
      }
    }

    /** One iteration of the search, in whichever form applies. */
    method Iterate(usePipeline: bool, configured: u32) returns (found: Option<Found>)
      requires Valid()
      modifies this`nonce, this`tried, local, second, pipe
      ensures found == Outcome(task, tried) && (found.None? ==> Valid())
      ensures old(tried) < tried <= old(tried) + BATCH_MAX
    {
      if fast && usePipeline {
        var hashes;
        found, nonce, hashes :=
          PipelinedBatch(task, template, tried, pipe, local, second, offset, nonce, configured);
        tried := tried + ClampPipelineBatch(configured);
      } else if fast {
        found, nonce := PatchedStep(task, hash, template, tried, local, offset, nonce);
        tried := tried + 1;
      } else {
        found, nonce := SlowStep(task, hash, slow, tried, nonce);
        tried := tried + 1;
      }
    }

    /** Searches until a hit or until a look at the flags says to leave; a run is as long as the looks and batch
        sizes it is given. What was found is the first hit among the nonces tried, and between two looks at most
        sixteen batches are tried. */
    method Run(usePipeline: bool, controls: seq<Control>, batches: seq<u32>)
        returns (found: Option<Found>, looks: nat, steps: nat)
      requires Valid() && tried == 0
      modifies this`nonce, this`tried, local, second, pipe
      ensures found == Outcome(task, tried)
      ensures looks <= |controls| && steps <= |batches| && Leave !in controls[..looks]
      ensures found.None? ==> steps == |batches| || looks == |controls| || controls[looks] == Leave
      ensures steps <= tried <= CONTROL_CHECK_INTERVAL * BATCH_MAX * looks
    {
      var counter := CONTROL_CHECK_INTERVAL;
      looks, steps := 0, 0;
      while steps < |batches|
        invariant Valid() && looks <= |controls| && steps <= |batches| && steps <= tried
        invariant Leave !in controls[..looks]
        invariant looks == 0 ==> counter == CONTROL_CHECK_INTERVAL && tried == 0
        invariant looks > 0 ==> counter < CONTROL_CHECK_INTERVAL
                                && tried <= CONTROL_CHECK_INTERVAL * BATCH_MAX * (looks - 1) + BATCH_MAX * (counter + 1)
        decreases |controls| - looks + |batches| - steps
      {
        counter := counter + 1;
        if counter >= CONTROL_CHECK_INTERVAL {
          counter := 0;
          if looks == |controls| || controls[looks] == Leave {
            break;
          }
          looks := looks + 1;
          if controls[looks - 1] == Pause {
            continue;
          }
        }
        found := Iterate(usePipeline, batches[steps]);
        steps := steps + 1;
        if found.Some? {
          return;
        }
      }
      found := None;
    }
  }

  lemma PatchedHolds(template: seq<byte>, offset: nat, nonce: u64)
    requires CanPatch(template, offset)
    ensures Holds(Patched(template, offset, nonce), template, offset)
  {
  }
}
