/** Jobs and shares of a stratum pool, and how a worker tries one nonce. */
module StratumJobs {
  import opened Machine
  import opened Bincode
  import opened Decode
  import opened PowBuffer
  import opened Target
  import opened Hex
  import Radix

  datatype StratumJob = StratumJob(
    jobId: string, blob: seq<byte>, nonceOffset: u32, targetLe: u64, targetBe: Option<Bytes32>,
    height: u64, cleanJobs: bool)

  /** `job` and `nonce` say where the share comes from; they are history. */
  datatype Share = Share(
    jobId: string, nonceHex: string, nonceHexAlt: string, resultHex: string, height: u64,
    job: StratumJob, nonce: u32)

  /** The blob has room for the nonce. */
  predicate Usable(job: StratumJob) {
    job.nonceOffset + 4 <= |job.blob|
  }

  /** The test for this, both when a job is read and before it is mined: it adds in 32 bits. */
  predicate SeemsToFit(offset: u32, length: nat) {
    (offset + 4) % TWO_TO_THE_32 <= length
  }

  predicate SeemsUsable(job: StratumJob) {
    SeemsToFit(job.nonceOffset, |job.blob|)
  }

  /** The test passes exactly if there is room, or the sum wraps to at most the length of the blob. */
  lemma SeemsUsableMeans(job: StratumJob)
    ensures SeemsUsable(job)
       <==> Usable(job) || (job.nonceOffset >= TWO_TO_THE_32 - 4
                            && job.nonceOffset + 4 - TWO_TO_THE_32 <= |job.blob|)
  {
  }

  /** The blob with the four bytes of the nonce in place. */
  function BlobWith(job: StratumJob, nonce: u32): seq<byte>
    requires Usable(job)
  {
    job.blob[..job.nonceOffset] + LittleEndian(nonce, 4) + job.blob[job.nonceOffset + 4..]
  }

  predicate ShareMeets(h: Bytes32, job: StratumJob) {
    if job.targetBe.Some? then Meets(h, job.targetBe.value) else LeValue(h[..8]) <= job.targetLe
  }

  function ShareOf(job: StratumJob, nonce: u32, h: Bytes32): Share {
    Share(job.jobId, NonceText(nonce), HexText(LittleEndian(nonce, 4)), HexText(h), job.height, job, nonce)
  }

  /** The share that a nonce gives, if its hash meets the job's target. */
  function Tried(hash: Digest, job: StratumJob, nonce: u32): Option<Share>
    requires Usable(job)
  {
    if ShareMeets(hash(BlobWith(job, nonce)), job) then Some(ShareOf(job, nonce, hash(BlobWith(job, nonce)))) else None
  }

  function NextNonce(nonce: u32, threads: u32): u32 {
    (nonce + threads) % TWO_TO_THE_32
  }

  // ---- One nonce, in place ----

  ghost predicate HoldsBlob(blob: seq<byte>, job: StratumJob) {
    && Usable(job) && |blob| == |job.blob|
    && blob[..job.nonceOffset] == job.blob[..job.nonceOffset]
    && blob[job.nonceOffset + 4..] == job.blob[job.nonceOffset + 4..]
  }

  method PutNonce(blob: array<byte>, job: StratumJob, nonce: u32)
    requires HoldsBlob(blob[..], job)
    modifies blob
    ensures HoldsBlob(blob[..], job) && blob[..] == BlobWith(job, nonce)
  {
    var at := job.nonceOffset;
    ghost var before := blob[..];
    blob[at + 0] := ShiftRight8(nonce, 0) % 0x100;
    blob[at + 1] := ShiftRight8(nonce, 1) % 0x100;
    blob[at + 2] := ShiftRight8(nonce, 2) % 0x100;
    blob[at + 3] := ShiftRight8(nonce, 3) % 0x100;
    BlobWritten(before, blob[..], job, nonce);
  }

  lemma BlobWritten(before: seq<byte>, after: seq<byte>, job: StratumJob, nonce: u32)
    requires HoldsBlob(before, job) && |after| == |before|
    requires forall k :: 0 <= k < 4 ==> after[job.nonceOffset + k] == LittleEndian(nonce, 4)[k]
    requires forall k :: 0 <= k < |before| && !(job.nonceOffset <= k < job.nonceOffset + 4) ==> after[k] == before[k]
    ensures HoldsBlob(after, job) && after == BlobWith(job, nonce)
  {
    var at := job.nonceOffset;
    assert after[..at] == before[..at] && after[at + 4..] == before[at + 4..];
    assert after[at..at + 4] == LittleEndian(nonce, 4) by {
      forall k | 0 <= k < 4
        ensures after[at..at + 4][k] == LittleEndian(nonce, 4)[k]
      {
        assert after[at + k] == LittleEndian(nonce, 4)[k];
      }
    }
    assert after == after[..at] + after[at..at + 4] + after[at + 4..];
  }

  method TryNonce(hash: Digest, blob: array<byte>, job: StratumJob, nonce: u32, threads: u32)
      returns (share: Option<Share>, next: u32)
    requires HoldsBlob(blob[..], job)
    modifies blob
    ensures HoldsBlob(blob[..], job)
    ensures share == Tried(hash, job, nonce) && next == NextNonce(nonce, threads)
  {
    PutNonce(blob, job, nonce);
    next := (nonce + threads) % TWO_TO_THE_32;
    var h := hash(blob[..]);
    var meets := StratumHashMeetsTarget(h, job.targetBe, job.targetLe);
    if !meets {
      return None, next;
    }
    var nonceHex := U32ToHexBe(nonce);
    var nonceHexAlt := U32ToHexLe(nonce);
    var resultHex := BytesToHex(h);
    share := Some(Share(job.jobId, nonceHex, nonceHexAlt, resultHex, job.height, job, nonce));
  }

  /** What a share says: its result reads back as the hash of the job's blob with its nonce, which meets the job's
      target; its nonce reads back most significant digit first, and as the bytes in the blob in the other form. */
  lemma ShareSays(hash: Digest, job: StratumJob, nonce: u32)
    requires Usable(job) && Tried(hash, job, nonce).Some?
    ensures var share := Tried(hash, job, nonce).value;
            var h := hash(BlobWith(job, nonce));
            && share.jobId == job.jobId && ShareMeets(h, job)
            && ParsedHex(share.resultHex) == Some(h)
            && ParsedHex(share.nonceHexAlt) == Some(LittleEndian(nonce, 4))
            && (forall i :: 0 <= i < 8 ==> HexValue(share.nonceHex[i]).Some?)
            && Radix.Value(16, Digits16(share.nonceHex)) == nonce
  {
    NonceTextReads(nonce, |NonceText(nonce)|);
    HexReads(hash(BlobWith(job, nonce)));
    HexReads(LittleEndian(nonce, 4));
  }

  lemma HexReads(bytes: seq<byte>)
    ensures ParsedHex(HexText(bytes)) == Some(bytes)
  {
    ParseAfterPrint(bytes, "");
    assert "" + HexText(bytes) == HexText(bytes);
  }
}
