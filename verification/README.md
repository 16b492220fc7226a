# Verified model of scrig

scrig is a proof-of-work miner. This project models its core in Dafny and proves what the code is for. `dafny verify dfyconfig.toml` checks everything.

Code that changes state is modelled by methods and classes that change state, each proved against a specification function; threads are modelled as state machines with one step for each lock region or atomic access.

| Files | What they cover |
|---|---|
| `Machine`, `Radix` | fixed-width integers, numerals |
| `Doubles`, `Json`, `JsonText` | doubles to and from decimal digits, the JSON printer and parser |
| `NumberRoundTrip`, `Grammar`, `GrammarSound`, `JsonRoundTrip`, `JsonStable`, `JsonLines` | the grammar that the parser accepts, what a printed value is read back as |
| `Base36`, `Wire`, `WireReader`, `WireRoundTrip` | base36 and the JSON form of blocks, with the round trip of a block through its text |
| `Chain`, `Bincode`, `Decode`, `PowBuffer` | the binary encoding, what is hashed for a block, and patching the nonce |
| `Stream`, `Sha256`, `Sha256Bits`, `Sha256Constants`, `Sha256Registers` | streaming SHA-256 against FIPS 180-4, and its functions, constants and recurrences by other means |
| `Target` | 256-bit targets in the three compiled variants, and comparisons |
| `Merkle`, `FilterBits`, `InclusionFilter` | the Merkle root, the address filter, trimming expired transactions |
| `Hits`, `Search` | the nonce search in its three forms |
| `WorkerPool`, `WorkerPoolSafety`, `MiningResult`, `StopLooks`, `SearchEnds` | the protocol between `mine_block`, its workers and `request_stop` |
| `PoolJobs` | job versions of a pool |
| `Hex`, `StratumJobs`, `StratumShares`, `StratumWork`, `StratumSubmit` | stratum: workers, shares and their fates, submissions |
| `StratumParse`, `StratumClient`, `StratumAnnounce` | stratum: line framing, messages, and what each form of message announces |

Hash functions are parameters, so every result holds for SHA-256 and RandomX alike; atomics are sequentially consistent. 64-bit and 32-bit wrap-around is written out where the code can reach it.

Some promises hold only under a condition, which is proved to be exact. A JSON value survives printing and parsing if and only if it holds no non-negative int64, no control character without a named escape and no double that its sixteen digits do not determine (`JsonStable.RoundTripExactly`); blocks always do. Patching a nonce equals encoding anew if and only if the new nonce is at least 2^32 (`PowBuffer.BlockPatch`). The 64-bit variant of target scaling agrees with the others if and only if the divisor is at most 2^56 (`Target.NarrowAgrees`). A byte list is read as it is written if and only if every entry is a whole number below 256 (`WireReader.BytesAsWritten`). An accepted stratum job has room for its nonce if and only if its offset is below 2^32 - 4 (`StratumParse.AcceptedJobs`); the test before mining does not stop the others (`StratumShares.WritesOutOfBounds`). Outside `mine_block` no worker reads the caller's flags unless a stop is requested, and then each flag at most once (`MiningResult.QuietOutside`, `StopLooks.LastLook`). And a pool job mined under version `v` is job `v` or `v + 1`, and both happen (`PoolJobs`).

## Model

| member | source | states |
|---|---|---|
| `Base36.EncodeBase36` | src/types.cpp:32-66 | The repeated division loops over the byte buffer give the text of the number the bytes denote; termination is proved |
| `Base36.DecodeBase36` | src/types.cpp:68-109 | The multiply-add loop fails exactly on an empty text, an invalid digit or a number of 256^len or more, and otherwise gives len bytes that denote the same number as the text |
| `Base36.DecodeAfterEncode` | src/types.cpp:32-109 | Decoding the text of any byte array, of any length, gives that array back |
| `Base36.EncodeAfterDecode` | src/types.cpp:32-109 | Encoding what a text decodes to gives the text in lower case without leading zeros |
| `Base36.EncodeInjective` | src/types.cpp:208-230 | Two arrays of one length with the same text are equal |
| `Base36.DigitsAsListed` | src/types.cpp:17 | The 36 digits are those of the table, in its order |
| `JsonText.EscapeString` | src/json.cpp:438-462 | Appends the quoted, escaped text to the output |
| `JsonText.Stringify` | src/json.cpp:464-540 | Appends the text of a value, compact or indented, to the output; a double with sixteen significant digits |
| `JsonText.Parser.ReadString` | src/json.cpp:236-293 | Reads exactly the string that the grammar gives at the current position, or its error, and leaves the position after it |
| `JsonText.Parser.ReadNumber` | src/json.cpp:295-366 | Same for numbers: the scanned token, whether it is an int64, a uint64 or a double, and the range error of each |
| `Doubles.FromDecimalIsNearest` | src/json.cpp:342-349 | The double that a literal is read as is the nearest of all numbers with a 53-bit significand, and of two that are equally near the one with the even significand |
| `Doubles.SameNumberSameDouble` | src/json.cpp:342-349 | Which double a literal is read as, and whether it is in range, depends on the number it denotes, not on where its point is |
| `Doubles.WholeNumbersAreExact` | src/json.cpp:342-349 | A whole number up to 2^53 is read exactly, however many decimal places are written |
| `Doubles.TruncatedIs` | src/json.cpp:68-74 | A double is converted to an unsigned integer exactly if it is not negative and lies below 2^64, and then to the whole number at or just below it |
| `Doubles.SixteenIsNearest` | src/json.cpp:481-486 | No number with sixteen decimal digits is nearer to a double than the one that is printed |
| `NumberRoundTrip.PrintedMeans` | src/json.cpp:481-486 | The text of a double is a number of the grammar, in the fixed or the exponent form without trailing zeros, and means the double nearest to its sixteen digits, or an integer if they leave no fraction below 10^16 |
| `NumberRoundTrip.WholeBecomesInteger` | src/json.cpp:481-486 | A whole double below 10^16 comes back as an integer |
| `JsonText.Parser.ReadValue` | src/json.cpp:200-226 | Same for any value, with the nesting bounded by the remaining input |
| `JsonText.Parser.ReadArray` | src/json.cpp:368-394 | Same for arrays |
| `JsonText.Parser.ReadObject` | src/json.cpp:396-431 | Same for objects; the first value of a repeated key stays |
| `JsonText.Parser.ReadDocument` | src/json.cpp:160-172 | Reads a whole text; anything but blanks after the value is an error |
| `GrammarSound.AcceptsExactly` | src/json.cpp:156-432 | The parser accepts a text if and only if it is that of a syntax tree of the JSON grammar (RFC 8259, with any character but quote and backslash in a string and the blanks of the C locale) whose numbers are in range, and gives the value of that tree |
| `GrammarSound.OneMeaning` | src/json.cpp:156-432 | The grammar is not ambiguous |
| `JsonRoundTrip.ParseAfterPrint` | src/json.cpp:156-552 | Parsing the compact or any indented text of any value gives its normal form, where non-negative int64 become uint64, control characters without a named escape become the text of their escape, and doubles become what their sixteen digits mean; it fails if and only if the sixteen digits of some double round to a number out of range |
| `JsonStable.RoundTripExactly` | src/json.cpp:156-552 | A value with ordered keys comes back unchanged if and only if it holds no non-negative int64, no control character without a named escape and no double whose sixteen digits mean something else |
| `JsonStable.ControlCharacterIsLost` | src/json.cpp:272-283 | A control character without a named escape comes back as the six characters of its escape |
| `JsonLines.EscapeDenotes` | src/json.cpp:438-462 | The four digits of that escape denote the character in base 16 |
| `JsonLines.TextPrintable` | src/json.cpp:464-540 | The compact text of any value holds no control character, so a message stands on one line |
| `JsonStable.ParseJsonWellFormed` | src/json.cpp:396-431 | Whatever the text, every object the parser returns has distinct keys in order |
| `JsonStable.EmplaceSorted` | src/json.cpp:396-431 | Inserting a key keeps the keys of an object distinct and in order |
| `Wire.BlockToJson` | src/types.cpp:384-414 | The loops over transactions build the JSON object of the block |
| `WireReader.BlockFromJson` | src/types.cpp:416-448 | Reads exactly the blocks that the value stands for, and fails if it stands for none: by its named fields alone, with texts up to case and leading zeros, integers of either kind, non-negative doubles cut to their whole part, bytes modulo 256 and the number of hashes modulo 2^32 |
| `WireReader.BlockReads` | src/types.cpp:416-448 | Both directions of this for every JSON value and every block |
| `WireReader.BytesAsWritten` | src/types.cpp:265-275 | A byte list is read as it is written if and only if every entry is a whole number below 256 |
| `WireReader.LargeEntry` | src/types.cpp:265-275 | An entry of 256 or more is reduced without an error |
| `Wire.TransactionToJson` | src/types.cpp:277-309 | Same for a transaction |
| `WireReader.TransactionFromJson` | src/types.cpp:311-349 | Reads exactly the transactions that the value stands for, and fails if it stands for none |
| `WireReader.TransactionReads` | src/types.cpp:311-349 | Both directions of this for every JSON value and every transaction |
| `WireRoundTrip.BlockRead` | src/types.cpp:277-448 | Every block is read back from its JSON value |
| `WireRoundTrip.BlockPlain` | src/types.cpp:277-414 | The JSON value of every block lies in the part of JSON that survives printing and parsing |
| `WireRoundTrip.BlockWireRoundTrip` | src/types.cpp:277-448 | Every block is read back from its JSON text, in any style |
| `WireRoundTrip.BlockTextInjective` | src/types.cpp:277-448 | Different blocks have different texts |
| `Bincode.Writer.WriteVaruint` | src/crypto.cpp:55-75 | Appends the encoding that the next two rows determine: one byte below 251, and otherwise a prefix of 251, 252 or 253 and two, four or eight little-endian bytes |
| `Decode.VarUintLength` | src/crypto.cpp:55-75 | It takes one byte below 251, three below 2^16, five below 2^32 and nine from there on |
| `Decode.VarUintIsShortest` | src/crypto.cpp:55-75 | No byte string that the decoder reads as the same number is shorter |
| `Bincode.Writer.WriteTransaction` | src/crypto.cpp:404-418 | Appends the encoding of a transaction to whatever the buffer holds |
| `Bincode.Writer.WriteBlock` | src/crypto.cpp:438-452 | Appends the encoding of a block and returns the position of its nonce |
| `Decode.DecodeBlockOf` | src/crypto.cpp:362-452 | The encoding is self-delimiting: whatever bytes follow it, the block and those bytes can be recovered |
| `Decode.EncodingInjective` | src/crypto.cpp:362-452 | No encoding is a prefix of another, and equal encodings are of equal blocks |
| `PowBuffer.BlockPowBuffer` | src/crypto.cpp:926-962 | The loop that digests the inputs twice and clears inputs and outputs, then the encoding, then the digests after the migration; and the nonce's position |
| `PowBuffer.TransactionPowBuffer` | src/crypto.cpp:454-475 | The bytes hashed for a transaction, and the nonce's position |
| `PowBuffer.BlockPowCommits` | src/crypto.cpp:926-962 | Two blocks have equal buffers if and only if they agree apart from inputs, outputs and stored hash, and after the migration also on the input digests |
| `PowBuffer.StrippedAgree` | src/crypto.cpp:926-962 | What that agreement means, field by field |
| `PowBuffer.DigestsAgree` | src/crypto.cpp:926-962 | Equal digest lists have equal digests for each transaction |
| `PowBuffer.BlockPowCommitsToInputs` | src/crypto.cpp:926-962 | After the migration equal buffers are of equal transaction inputs, or two different byte strings with one digest are exhibited |
| `PowBuffer.DigestInputDecodes` | src/crypto.cpp:938-945 | What is digested for a transaction decodes to its inputs twice over |
| `PowBuffer.TransactionPowCommits` | src/crypto.cpp:454-475 | Two transactions have equal buffers if and only if they agree on everything but the stored id |
| `PowBuffer.WriteNonceLe` | src/miner.cpp:84-94 | Overwrites eight bytes in place with the nonce, least significant byte first, and nothing else |
| `PowBuffer.PatchNonce` | src/crypto.cpp:111-120 | Succeeds exactly if a nine-byte varint stands at the offset, then replaces it in place; otherwise changes nothing |
| `PowBuffer.BlockPatch` | src/crypto.cpp:913-962 | A block template can be patched if and only if its nonce is at least 2^32, and patching it equals encoding anew if and only if the new nonce is at least 2^32 |
| `PowBuffer.TransactionPatch` | src/crypto.cpp:454-475 | The same for a transaction |
| `PowBuffer.PatchTwice` | src/crypto.cpp:913-924 | Patching again is patching once with the last nonce, and the buffer stays patchable |
| `PowBuffer.NextNonceBase` | src/miner.cpp:73-82 | The generated base lies in [2^32, 2^33), whatever the seed, and the seed moves on by the constant |
| `Stream.HashStream` | src/crypto.cpp:203-240 | Buffering bytes in a block and padding in place with one or two final blocks folds the compression over the padded message, for every compression function and message |
| `Stream.ZeroCountIsLeast` | src/crypto.cpp:214-230 | The padding is the shortest that leaves room for the length (section 5.1.1 of FIPS 180-4) |
| `Stream.PadInjective` | src/crypto.cpp:214-240 | Messages of fewer than 2^64 bits are padded to different byte strings |
| `Sha256.Transform` | src/crypto.cpp:147-198 | The in-place schedule and rounds compute the compression function (section 6.2.2 of FIPS 180-4), which the rows below determine |
| `Sha256.Hash` | src/crypto.cpp:122-254 | The streaming computation equals the hash of the padded message, for every message, whose words are written as the rows below say |
| `Sha256.BitwiseBit` | src/crypto.cpp:136-146 | Each bit of a word operation is the operation on the bits |
| `Sha256Bits.RotrBit` | src/crypto.cpp:143-145 | Bit i of a rotation by n is bit i + n modulo 32 |
| `Sha256Bits.ChooseBit` | src/crypto.cpp:174 | Each bit of the choice is that of the second word where the first has a one, and of the third elsewhere |
| `Sha256Bits.MajorityBit` | src/crypto.cpp:177 | Each bit of the majority is the one that at least two of the words have |
| `Sha256Bits.BigSigmaBits` | src/crypto.cpp:173-176 | Each bit of the two sums of the rounds is the parity of the three bits that it takes |
| `Sha256Bits.SmallSigmaBits` | src/crypto.cpp:158-159 | The same for the two functions of the schedule, whose third bit is zero near the top |
| `Sha256Constants.KIsCubeRoots` | src/crypto.cpp:130-141 | Each constant of the rounds holds the first 32 bits of the fraction of the cube root of its prime, by bounds on cubes |
| `Sha256Constants.InitialIsSquareRoots` | src/crypto.cpp:201-204 | Each initial word holds those of the square root of its prime |
| `Sha256Registers.BigEndianWordIs` | src/crypto.cpp:150-155 | Four bytes of a block are a word, the first being the highest |
| `Sha256Registers.WindowIs` | src/crypto.cpp:150-161 | The schedule is what a window of sixteen words shows that slides on by sums modulo 2^32 |
| `Sha256Registers.RoundsAreRegisters` | src/crypto.cpp:172-188 | After n rounds the eight variables are the last four words of two sequences, each defined by its own recurrence |
| `Sha256Registers.CompressIs` | src/crypto.cpp:147-198 | One block adds to each word, modulo 2^32, what 64 terms of these sequences leave, with the constants and the words of the window |
| `Sha256Registers.OutputIsWords` | src/crypto.cpp:241-251 | Bytes 4q to 4q + 3 of the digest are word q, the highest byte first |
| `Target.MultiplyDivide` | src/crypto.cpp:330-358 | floor(x * m / d) if x * m < 2^256 and all ones otherwise, for every x, m and d > 0; overflow is reported exactly then (128-bit variant) |
| `Target.MultiplyDivideHalves` | src/crypto.cpp:262-330 | The variant with 64-bit halves gives the same result for all inputs; its two early exits are never taken and its division never traps |
| `Target.MultiplyDivideNarrow` | src/crypto.cpp:262-330 | The variant without a wide division saturates exactly if the product overflows or some remainder needs more than 56 bits, and agrees otherwise |
| `Target.NarrowAgrees` | src/crypto.cpp:313-326 | The last variant agrees with the others on all inputs if and only if the divisor is at most 2^56 |
| `Target.ScaledMonotone` | src/crypto.cpp:256-360 | A larger target or factor never gives a smaller scaled target |
| `Target.BlockDifficultyTarget` | src/crypto.cpp:867-876 | The scaled target, which is never harder than the difficulty when the scale is at least one |
| `Target.HashMeetsTarget` | src/crypto.cpp:878-901 | The comparison in 64-bit chunks holds if and only if the hash is numerically at most the target |
| `Target.StratumHashMeetsTarget` | src/miner.cpp:111-141 | The byte-wise comparison holds if and only if the hash is at most the 256-bit target; without one, if and only if its first eight bytes, least significant first, are at most the 64-bit target |
| `Merkle.BuildMerkleRoot` | src/crypto.cpp:968-1002 | The level-by-level loop terminates and computes the recursively defined root in which a last odd node is its own sibling |
| `Merkle.EqualRoots` | src/crypto.cpp:968-1002 | Lists of one length with equal roots have equal leaves, or two different 64-byte inputs with one hash are exhibited |
| `Merkle.EqualIds` | src/crypto.cpp:968-1002 | They then have equal transaction ids, or a collision or an id whose hash is the leaf of a missing id is exhibited |
| `Merkle.OddTail` | src/crypto.cpp:987-995 | A list of odd length above one has the root of the list with its last transaction repeated, so the length matters |
| `Merkle.RootOfHalves` | src/crypto.cpp:987-1002 | The root of two lists of the same power of two is the hash of their roots in order |
| `FilterBits.SetBit` | src/crypto.cpp:1032 | Sets that bit in place and leaves all others |
| `FilterBits.BitsOfNumber` | src/crypto.cpp:1032 | Bit n of the filter is bit n of the number that its bytes denote, the lowest first |
| `InclusionFilter.LittleEndianPrefix` | src/crypto.cpp:481-487 | The first eight bytes as a number, least significant first |
| `InclusionFilter.FilterIndex` | src/crypto.cpp:489-498 | The index is the prefix of the hash of the address and the four bytes of the counter |
| `InclusionFilter.IndexPreimage` | src/crypto.cpp:489-498 | The hashed bytes are 36: the address and then four that denote the counter, the lowest first |
| `InclusionFilter.AddressesAre` | src/crypto.cpp:1036-1043 | An address is inserted if and only if it owns an input or receives an output of some transaction |
| `InclusionFilter.BuildAddressFilter` | src/crypto.cpp:1004-1046 | Without addresses the empty filter; otherwise a bit is set if and only if some input owner or output receiver hashes to it, for any sizing; all writes are in bounds |
| `InclusionFilter.NeverMisses` | src/crypto.cpp:1026-1043 | Every bit that an included address asks for is in bounds and set |
| `InclusionFilter.FilterIsUnique` | src/crypto.cpp:1004-1046 | The filter is determined by the set and the number of addresses |
| `InclusionFilter.OrderDoesNotMatter` | src/crypto.cpp:1036-1043 | Reordering the transactions gives the same filter |
| `InclusionFilter.TrimExpiredTransactions` | src/crypto.cpp:1048-1065 | Keeps, in order, the transactions that are not expired; reports whether any was; changes nothing else if none was, and otherwise the root and the filter fit what is left |
| `InclusionFilter.KeptCounts` | src/crypto.cpp:1050-1057 | Each transaction stays as often as it was there, or not at all if its timestamp plus 360, modulo 2^64, lies before now |
| `Hits.FirstHit` | src/miner.cpp:345-454 | The index found is a hit with no hit before it, and none is found only if there is none |
| `Hits.SameHashesSameHits` | src/miner.cpp:366-454 | Searches that hash each nonce alike find the same first hit |
| `Hits.NoncesDisjoint` | src/miner.cpp:336-372 | While nothing wraps, no nonce is tried twice by one or two workers, and none lies below the base |
| `Hits.NoncesCovered` | src/miner.cpp:336-372 | Every nonce from the base upward belongs to some worker's progression |
| `Search.HashPipeline.Begin` | src/crypto.cpp:816-827 | The buffer handed over is pending |
| `Search.HashPipeline.Next` | src/crypto.cpp:829-847 | Returns the hash of the pending input and makes the next one pending; fails without a pending input |
| `Search.HashPipeline.Last` | src/crypto.cpp:849-865 | Returns the hash of the pending input and drains the pipeline |
| `Search.ClampPipelineBatch` | src/miner.cpp:96-101 | The default for zero, and otherwise the size from 4 to 32 nearest to the configured one |
| `Search.PipelinedLoop` | src/miner.cpp:382-394 | Alternating between two buffers, no buffer is overwritten while it is pending, and each hash is paired with the nonce before |
| `Search.PipelinedBatch` | src/miner.cpp:366-418 | A batch of any configured size finds the first hit of its nonces with the right nonce and hash, stays within its 32 entries, and drains the pipeline |
| `Search.PatchedStep` | src/miner.cpp:419-436 | The patched form finds the same and moves on by one step |
| `Search.SlowStep` | src/miner.cpp:437-454 | The re-encoding form finds the same; on a hit the nonce stays |
| `Search.FormsAgree` | src/miner.cpp:366-454 | Patching a template and encoding each candidate find the same first hit while no nonce is below 2^32, for blocks and for transactions |
| `Search.Searcher.constructor` | src/miner.cpp:334-344 | Copies the template, tries to patch it, and so chooses the form of the search |
| `Search.Searcher.Run` | src/miner.cpp:345-462 | For every sequence of looks at the flags and of batch sizes, what is found is the first hit among the nonces taken, at most sixteen batches are taken per look, and it ends without a hit only when a look says to leave or there are no more looks or batches |
| `MiningResult.FoundIsSound` | src/miner.cpp:774-819 | In every interleaving, a result returned as found is the hash of the current job's candidate with the returned nonce, meets the job's target, and is the first hit of some worker |
| `MiningResult.SubmittedBlockIsSound` | src/miner.cpp:822-826 | The block then submitted carries the hash of its own encoding, which meets the target |
| `MiningResult.NoHitHasCauses` | src/miner.cpp:345-360 | Without a hit every worker has left the search of this generation because of a flag that was up |
| `SearchEnds.EndsInTime` | src/miner.cpp:345-360 | The converse, over every schedule: while any one flag is up, a worker tries nonces in at most sixteen more steps, in none from the start of a look on, and has counted itself after at most 44 steps of its own |
| `SearchEnds.LeftForCause` | src/miner.cpp:351-360 | A worker about to count itself has left for a flag that is up, or a hit was found |
| `MiningResult.ThrewHasCause` | src/miner.cpp:463-469 | An exception that the call passes on is that of a worker that failed in this generation |
| `MiningResult.Barrier` | src/miner.cpp:306-329 | In every reachable state a worker has completed exactly the generations it has left, is at most one behind, works only on the current job, and the completion count is the number of workers done |
| `MiningResult.QuietOutside` | src/miner.cpp:774-819 | Without a stop, no worker is at work outside the call or while its result is read |
| `StopLooks.LooksAfterReturn` | src/miner.cpp:793-797 | With a stop this fails: from every initial state with one worker a run ends with the call returned, interrupted, and the worker about to read the caller's flag |
| `StopLooks.LastLook` | src/miner.cpp:345-360 | What remains: over any steps after a stop, a worker reads each of the caller's two flags at most once more, and only if it was past its look at the stop and not past the one at the flag |
| `MiningResult.NeverStuck` | src/miner.cpp:793-800 | While the publisher sleeps, some worker has not completed; after a stop a thread is about to wake it; without one, every worker that has not completed is about to pick up the job or at work on it |
| `MiningResult.StopEndsTheWait` | src/miner.cpp:181-190 | After a stop, at most six steps of the stopping thread and the publisher lead from the wait out of the call |
| `MiningResult.NoLostWakeup` | src/miner.cpp:181-190 | No worker sleeps through a new generation or a stop, and after joining all workers are gone |
| `WorkerPoolSafety.RunKeeps` | src/miner.cpp:297-487 | Every state of every run satisfies the invariant behind these results |
| `WorkerPoolSafety.WorkerKeeps` | src/miner.cpp:306-486 | Each step of a worker keeps the invariant; that each look leads out of the search is `SearchEnds.EndsInTime` |
| `WorkerPoolSafety.PublisherKeeps` | src/miner.cpp:236-295 | Each step of the publisher, from starting the workers to joining them, keeps the invariant |
| `WorkerPoolSafety.StopperKeeps` | src/miner.cpp:181-190 | Each step of a thread that requests a stop keeps the invariant |
| `PoolJobs.SubmissionsAreFresh` | src/miner.cpp:1198-1295 | In every run, a share that passes the version check at v was prepared from received job v or v + 1, and at most one newer job had been received |
| `PoolJobs.NewerJobUnderOlderVersion` | src/miner.cpp:1201-1205 | Two runs in which the newer job is mined under the older version, and the older job after the newer is stored |
| `PoolJobs.OneBlockPerVersion` | src/miner.cpp:1274-1281 | In every run, all submissions of one version are of one block, and versions do not go back |
| `PoolJobs.FindsConserved` | src/miner.cpp:1288-1318 | In every run, each share found has been submitted once, or dropped because the version had changed, or is about to be checked |
| `Hex.BytesToHex` | src/miner.cpp:143-152 | Two lower-case digits for each byte |
| `Hex.U32ToHexBe` | src/miner.cpp:154-162 | Eight digits, most significant first |
| `Hex.U32ToHexLe` | src/miner.cpp:164-173 | The text of the four little-endian bytes |
| `Hex.NonceTextReads` | src/miner.cpp:154-162 | The first form reads as the nonce |
| `Hex.HexTextDenotes` | src/miner.cpp:143-152 | The text of bytes denotes in base 16 the number that they denote in base 256 |
| `Hex.Trim` | src/stratum_client.cpp:1340-1350 | The two loops compute the trimmed text |
| `Hex.TrimmedDropsBlanks` | src/stratum_client.cpp:1340-1350 | Only blanks are dropped, at both ends, and all of them |
| `Hex.ParseHex` | src/stratum_client.cpp:1310-1338 | Fails on an odd length or a bad digit after trimming and dropping a prefix, and otherwise gives the bytes |
| `Hex.ParseAfterPrint` | src/stratum_client.cpp:1310-1338 | Every printed byte string is read back, with or without a prefix |
| `Hex.PrintAfterParse` | src/stratum_client.cpp:1310-1338 | What is read prints as the text in lower case |
| `StratumJobs.TryNonce` | src/miner.cpp:1411-1434 | Patches four bytes of the blob in place, leaves the rest, and gives a share exactly if the hash meets the job's target |
| `StratumJobs.ShareSays` | src/miner.cpp:1421-1433 | The texts of a share read back as the hash and the nonce, in both forms |
| `StratumJobs.SeemsUsableMeans` | src/miner.cpp:1401-1404 | The 32-bit test before mining passes if and only if there is room for the nonce or the sum wraps to at most the length of the blob |
| `StratumShares.SharesConserved` | src/miner.cpp:1460-1600 | In every run, the shares found are, in order, those handled, the one in hand and those pending; their numbers are those dropped, stale, failed, accepted and rejected, of which the next row says which is which |
| `StratumShares.FatesAreDeserved` | src/miner.cpp:1529-1600 | In every run, a share was accepted if and only if the pool's last answer accepts it, failed if and only if its only submission was not answered, and was rejected in every other case in which it was submitted; it was dropped as stale if and only if no clean job had dropped it and another job was active |
| `StratumShares.SubmissionsAreGood` | src/miner.cpp:1526-1582 | Every submission names the job active at that time; a share is submitted twice if and only if the first answer rejects its difficulty and the other form of its nonce differs and is not empty; the form tried first is the preferred one, which changes with every accepted second submission and at no other time |
| `StratumShares.NewJobDrops` | src/miner.cpp:1462-1484 | Whatever the workers do meanwhile, a clean job drops every share queued by the time the queue is cleared, and any other job drops none |
| `StratumSubmit.Submit` | src/stratum_client.cpp:979-1069 | A request is followed by the next one exactly if it is refused as unknown or, after a login by capability, its response is lost; the share is accepted if and only if some response accepts it, and unanswered if and only if the last response is lost |
| `StratumSubmit.RequestsName` | src/stratum_client.cpp:910-977 | Every request of a submission, of any shape and in any mode, names the same job, form of the nonce and, unless it is short, result |
| `StratumSubmit.RequestsDiffer` | src/stratum_client.cpp:910-977 | No two requests of a submission are the same |
| `StratumSubmit.RequestsInBothVersions` | src/stratum_client.cpp:910-977 | Each is tried both as JSON-RPC 2.0 and without, the former first except in the short mode |
| `StratumShares.SharesAreSound` | src/miner.cpp:1404-1434 | Every share comes from a job of the pool with room for its nonce and its hash meets that job's target |
| `StratumShares.OutOfBoundsMeans` | src/miner.cpp:1401-1415 | In every run, a worker writes outside its blob only for a job of the pool whose offset is 2^32 - 4 or more |
| `StratumShares.WritesOutOfBounds` | src/miner.cpp:1401-1415 | For every job that passes the test without room, four steps lead a worker to that write |
| `StratumShares.MainKeeps` | src/miner.cpp:1460-1600 | Each step of the main loop keeps the invariant behind `SharesConserved`, `FatesAreDeserved` and `SubmissionsAreGood` |
| `StratumShares.WorkerKeeps` | src/miner.cpp:1377-1434 | Each step of a worker keeps it |
| `StratumWork.TriedInOrder` | src/miner.cpp:1373-1416 | In every run, the k-th nonce that a worker tries is its first one and k strides modulo 2^32, for the job of the version that it has seen, which has room; jobs are tried in the order of their arrival |
| `StratumWork.HitsAreQueued` | src/miner.cpp:1418-1435 | No hit is lost: whatever was tried and meets its job's target has been queued or is about to be |
| `StratumWork.NoncesRepeat` | src/miner.cpp:1373-1416 | A worker comes back to a nonce if and only if its strides add up to a multiple of 2^32 |
| `StratumWork.OldJobsEnd` | src/miner.cpp:1406-1409 | Over every schedule, once there is a new job a worker tries at most one more nonce for any older one |
| `StratumWork.LeavesWhenTold` | src/miner.cpp:1406-1409 | The same once mining stops or is paused |
| `StratumParse.TargetPrefixLe` | src/stratum_client.cpp:119-126 | Up to eight bytes as a number, least significant first |
| `StratumParse.TargetPrefixBe` | src/stratum_client.cpp:128-135 | Up to eight bytes as a number, most significant first |
| `StratumParse.AcceptedJobs` | src/stratum_client.cpp:1249-1308 | An accepted job has a blob, a target and the id of the message, and room for the nonce if and only if its offset is below 2^32 - 4, for every blob below 2^32 bytes |
| `StratumParse.WrappedOffset` | src/stratum_client.cpp:1296-1298 | Every offset from 2^32 - 4 on is accepted although the blob has no room for it |
| `StratumParse.JobReads` | src/stratum_client.cpp:1195-1308 | A job announced by an object, in any spelling of its height, clean flag and offset, is read back as it is, and is read if and only if it has a blob, an offset that seems to leave room, and a target |
| `StratumParse.ChosenIsNearest` | src/stratum_client.cpp:1262-1290 | Of the two readings of a long target the one nearer to the difficulty's target is used, and the first if they are equally near |
| `StratumParse.TargetPrecedence` | src/stratum_client.cpp:1249-1290 | A target of at most eight bytes is read whatever the difficulty; without a target it is that of the difficulty |
| `StratumParse.ReadMiningParams` | src/stratum_client.cpp:1134-1193 | The loop chooses the first Boolean, the first number of at most 512, and of the other parameters the first that looks like a target or is a positive number |
| `StratumParse.MiningFieldsFound` | src/stratum_client.cpp:1134-1193 | Which parameter ends in which field of the job, for every key |
| `StratumClient.Client.Receive` | src/stratum_client.cpp:281-295 | Received bytes are appended to the buffer; none is lost or added |
| `StratumClient.Client.ReadJsonLine` | src/stratum_client.cpp:252-297 | Consumes lines up to the first that is not blank, and reports trouble only with no complete line left or after a line that is not JSON |
| `StratumClient.Client.ReadMessage` | src/stratum_client.cpp:299-344 | The difficulty and the queue are what the lines consumed so far mean; what a message means is stated by `StratumAnnounce` |
| `StratumClient.Client.PollJob` | src/stratum_client.cpp:873-891 | Hands out the oldest job; after a timeout the jobs handed out are all those of the bytes received |
| `StratumClient.Client.RequestResponse` | src/stratum_client.cpp:346-386 | The response carries the id of the request, and it fails to send exactly if the socket does; jobs that arrive meanwhile are queued |
| `StratumClient.InOrder` | src/stratum_client.cpp:873-891 | At any time the jobs handed out begin the list that the whole stream announces line by line |
| `StratumClient.ChunkingIndependent` | src/stratum_client.cpp:252-344 | Two clients of one stream, split in any ways, never disagree on the jobs |
| `StratumClient.Session` | src/stratum_client.cpp:346-386 | The same for any sequence of polls and requests, without loss or repetition |
| `StratumClient.MeaningSplit` | src/stratum_client.cpp:262-296 | A stream means what its complete lines mean, and then the rest |
| `StratumAnnounce.ObjectIsHeard` | src/stratum_client.cpp:1071-1098 | A message of any of the three methods whose parameters are an object that announces a job queues exactly that job, if it can be read |
| `StratumAnnounce.ResultIsHeard` | src/stratum_client.cpp:1100-1110 | So does one of another method whose result carries the job; without a method nothing is queued |
| `StratumAnnounce.NotifyReads` | src/stratum_client.cpp:1112-1132 | The list of an id, a blob and a target gives that job with the offset 39, no height and no clean flag, under the same exact condition |
| `StratumAnnounce.NotifyDifficulty` | src/stratum_client.cpp:1112-1132 | A number in the third place acts as the difficulty, and anything but a text there leaves the running one |
| `StratumAnnounce.NotifyIsHeard` | src/stratum_client.cpp:1112-1132 | Both, for whole messages |
| `StratumAnnounce.MiningIsHeard` | src/stratum_client.cpp:1134-1193 | The list of an id, a blob and, in any order, a target, an offset of at most 512 and the clean flag queues that job |
| `StratumAnnounce.DifficultyIsHeard` | src/stratum_client.cpp:315-335 | A difficulty holds from its own message on, for a job in that message too; what is not a number changes nothing |
| `StratumAnnounce.LineIsHeard` | src/stratum_client.cpp:252-344 | A message that survives printing and parsing, sent as one line, does what it says |

## Left out

- RandomX, its data sets and its flags; only the contract of begin, next and last is kept.
- Sockets, `select`, connecting and reconnecting, the five login attempts: a client starts after its login. The replies to a submission are parameters.
- Clocks, sleeps, status lines, logs, thread priorities and hash-rate counters.
- Floating point: the sizes of the address filter, the scale of a block's difficulty and the quotient behind a stratum target are parameters. JSON doubles are exact: finite binary64 numbers, read with rounding to nearest even and printed with sixteen digits as `%.16g` does. A literal is out of range if it rounds to 2^1024 or more, or to zero without being zero.
- Converting a double of 2^64 or more to an integer is undefined in C++; here it fails (`Wire.AsUint64`), or gives no number (`StratumParse.NumberToU64`).
- The texts and positions of error messages; errors are constructors.
- Weak memory: relaxed atomics are modelled as sequentially consistent.
- The threads of the reward search: they share its inner loop, which is proved in `Search`, but end by being joined instead of by generations.
- The cancel flags of a job are flags that may change at any time, not references; `MiningResult.QuietOutside` and `StopLooks.LastLook` say who may still read them.
- Generation and version counters are unbounded in `WorkerPool`, `PoolJobs` and `StratumShares`.
- What happens after a worker has written outside its blob: the worker then takes no further step. Blobs of 2^32 bytes or more, in which the positions wrap.
- `std::map` objects of JSON are sequences of fields in key order; lists and buffers have no size limit except where a 64-bit length is written.
- A failure to start a worker thread, and running out of memory outside the search.
- Search.FormsAgree: needs every tried nonce to be at least 2^32, because patching writes nine bytes for every nonce while encoding writes fewer for smaller ones; nonces start at 2^32 or above and get smaller only by wrapping at 2^64.
- Hits.NoncesDisjoint: assumes no wrap at 2^64, and says nothing about stratum workers: each draws its own base, so two of them may try the same nonce, and one comes back to its own exactly as `StratumWork.NoncesRepeat` says.
- PowBuffer.NextNonceBase: does not say which number of the interval a seed gives; the search does not depend on it.
- Merkle.EqualRoots: exhibits a collision instead of assuming an injective hash, because no function from all byte strings to 32 bytes is injective.
- MiningResult.NeverStuck: says who has a step to take, not that the scheduler lets them; a search ends once a flag is up (`SearchEnds.EndsInTime`), and without a hit or a flag it goes on.
- Node requests, configuration, processor topology and the dashboard.
