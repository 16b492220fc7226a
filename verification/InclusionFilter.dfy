/** The filter of addresses that a block carries, and trimming expired transactions. */
module InclusionFilter {
  import opened Machine
  import opened Radix
  import opened Chain
  import opened Bincode
  import opened Decode
  import opened PowBuffer
  import opened FilterBits
  import opened Merkle

  /** Bits and hashes for a number of addresses. */
  type Sizing = nat -> (u64, u32)

  // ---- What a filter is ----

  /** The bits position that hash number `i` of an address asks for, before reduction. */
  function Index(sha: Digest, address: Bytes32, i: u32): nat {
    LeValue(sha(address + LittleEndian(i, 4))[..8])
  }

  function InputOwners(inputs: seq<TransactionInput>): (owners: seq<Bytes32>)
    ensures |owners| == |inputs|
  {
    if inputs == [] then [] else InputOwners(inputs[..|inputs| - 1]) + [inputs[|inputs| - 1].outputOwner]
  }

  function Receivers(outputs: seq<TransactionOutput>): (receivers: seq<Bytes32>)
    ensures |receivers| == |outputs|
  {
    if outputs == [] then [] else Receivers(outputs[..|outputs| - 1]) + [outputs[|outputs| - 1].receiver]
  }

  function AddressesOf(tx: Transaction): seq<Bytes32> {
    InputOwners(tx.inputs) + Receivers(tx.outputs)
  }

  function Addresses(txs: seq<Transaction>): seq<Bytes32> {
    if txs == [] then [] else Addresses(txs[..|txs| - 1]) + AddressesOf(txs[|txs| - 1])
  }

  /** Some hash of the address asks for bit `n`. */
  ghost predicate Asks(sha: Digest, numBits: nat, numHashes: nat, address: Bytes32, n: nat)
    requires numBits > 0
  {
    exists i: u32 :: i < numHashes && Index(sha, address, i) % numBits == n
  }

  /** Exactly the bits that some address asks for are set. */
  ghost predicate Exact(sha: Digest, bits: seq<byte>, numBits: nat, numHashes: nat, addresses: seq<Bytes32>)
    requires numBits > 0
  {
    forall n: nat :: n < 8 * |bits| ==>
      (BitAt(bits, n) <==> exists a :: a in addresses && Asks(sha, numBits, numHashes, a, n))
  }

  ghost predicate IsFilter(sha: Digest, sizing: Sizing, addresses: seq<Bytes32>, filter: AddressFilter) {
    if addresses == [] then filter == AddressFilter([], 0, 0)
    else
      && (filter.numBits, filter.numHashes) == sizing(|addresses|)
      && |filter.bits| == (filter.numBits + 7) / 8
      && (filter.numBits > 0 ==> Exact(sha, filter.bits, filter.numBits, filter.numHashes, addresses))
  }

  /** The index is the first eight bytes, least significant first, of the hash of the address and the counter. */
  lemma IndexPreimage(sha: Digest, address: Bytes32, i: u32) returns (preimage: seq<byte>)
    ensures |preimage| == 36 && preimage[..32] == address && LeValue(preimage[32..]) == i
    ensures Index(sha, address, i) == LeValue(sha(preimage)[..8])
  {
    preimage := address + LittleEndian(i, 4);
    Powers();
    LeValueOf(i, 4);
    assert preimage[32..] == LittleEndian(i, 4);
  }

  lemma {:induction false} OwnersAre(inputs: seq<TransactionInput>, i: nat)
    requires i < |inputs|
    ensures InputOwners(inputs)[i] == inputs[i].outputOwner
  {
    if i < |inputs| - 1 {
      OwnersAre(inputs[..|inputs| - 1], i);
    }
  }

  lemma {:induction false} ReceiversAre(outputs: seq<TransactionOutput>, i: nat)
    requires i < |outputs|
    ensures Receivers(outputs)[i] == outputs[i].receiver
  {
    if i < |outputs| - 1 {
      ReceiversAre(outputs[..|outputs| - 1], i);
    }
  }

  /** The address owns an input or receives an output of the transaction. */
  ghost predicate Involved(tx: Transaction, address: Bytes32) {
    || (exists i :: 0 <= i < |tx.inputs| && tx.inputs[i].outputOwner == address)
    || (exists i :: 0 <= i < |tx.outputs| && tx.outputs[i].receiver == address)
  }

  lemma AddressesOfTransaction(tx: Transaction, address: Bytes32)
    ensures address in AddressesOf(tx) <==> Involved(tx, address)
  {
    var owners, receivers := InputOwners(tx.inputs), Receivers(tx.outputs);
    forall i | 0 <= i < |tx.inputs|
      ensures owners[i] == tx.inputs[i].outputOwner
    {
      OwnersAre(tx.inputs, i);
    }
    forall i | 0 <= i < |tx.outputs|
      ensures receivers[i] == tx.outputs[i].receiver
    {
      ReceiversAre(tx.outputs, i);
    }
    assert address in AddressesOf(tx) <==> address in owners || address in receivers;
  }

  /** The addresses of a list of transactions are those that own an input or receive an output of one of them. */
  lemma {:induction false} AddressesAre(txs: seq<Transaction>, address: Bytes32)
    ensures address in Addresses(txs) <==> exists t :: 0 <= t < |txs| && Involved(txs[t], address)
  {
    if txs != [] {
      var n := |txs| - 1;
      AddressesAre(txs[..n], address);
      AddressesOfTransaction(txs[n], address);
      assert Addresses(txs) == Addresses(txs[..n]) + AddressesOf(txs[n]);
      if t :| 0 <= t < n && Involved(txs[..n][t], address) {
        assert Involved(txs[t], address);
      }
      if t :| 0 <= t < n && Involved(txs[t], address) {
        assert Involved(txs[..n][t], address);
      }
    }
  }

  /** No address is missed: every bit that an included address asks for is within bounds and set. */
  lemma NeverMisses(sha: Digest, sizing: Sizing, addresses: seq<Bytes32>, filter: AddressFilter,
      address: Bytes32, i: u32)
    requires IsFilter(sha, sizing, addresses, filter) && address in addresses
    requires filter.numBits > 0 && i < filter.numHashes
    ensures var n := Index(sha, address, i) % filter.numBits; n / 8 < |filter.bits| && BitAt(filter.bits, n)
  {
    var n := Index(sha, address, i) % filter.numBits;
    assert Asks(sha, filter.numBits, filter.numHashes, address, n);
  }

  /** The filter depends only on which addresses there are and how many: in particular not on their order. */
  lemma FilterIsUnique(sha: Digest, sizing: Sizing, a: seq<Bytes32>, b: seq<Bytes32>, f: AddressFilter,
      g: AddressFilter)
    requires IsFilter(sha, sizing, a, f) && IsFilter(sha, sizing, b, g)
    requires |a| == |b| && forall x :: x in a <==> x in b
    ensures f == g
  {
    if a != [] {
      if f.numBits > 0 {
        forall n: nat | n < 8 * |f.bits|
          ensures BitAt(f.bits, n) == BitAt(g.bits, n)
        {
        }
      }
      SameBitString(f.bits, g.bits);
    }
  }

  // ---- Reordering transactions ----

  lemma LastOfSum<T>(a: seq<T>, b: seq<T>)
    requires b != []
    ensures (a + b)[..|a + b| - 1] == a + b[..|b| - 1] && (a + b)[|a + b| - 1] == b[|b| - 1]
  {
  }

  lemma {:induction false} AddressesSplit(a: seq<Transaction>, b: seq<Transaction>)
    ensures Addresses(a + b) == Addresses(a) + Addresses(b)
  {
    if b == [] {
      assert a + b == a;
    } else {
      var n := |b| - 1;
      AddressesSplit(a, b[..n]);
      LastOfSum(a, b);
      Assoc(Addresses(a), Addresses(b[..n]), AddressesOf(b[n]));
    }
  }

  lemma MiddleOut<T>(a: seq<T>, x: seq<T>, b: seq<T>)
    ensures multiset((a + x) + b) == multiset(a + b) + multiset(x)
  {
  }

  lemma WithoutOne<T>(s: seq<T>, j: nat)
    requires j < |s|
    ensures s == (s[..j] + [s[j]]) + s[j + 1..]
    ensures multiset(s) == multiset(s[..j] + s[j + 1..]) + multiset{s[j]}
  {
    assert s == (s[..j] + [s[j]]) + s[j + 1..];
    MiddleOut(s[..j], [s[j]], s[j + 1..]);
  }

  lemma AddressesLast(txs: seq<Transaction>, tx: Transaction)
    ensures Addresses(txs + [tx]) == Addresses(txs) + AddressesOf(tx)
  {
    assert (txs + [tx])[..|txs|] == txs;
  }

  lemma AddressesWithout(txs: seq<Transaction>, j: nat)
    requires j < |txs|
    ensures multiset(Addresses(txs))
         == multiset(Addresses(txs[..j] + txs[j + 1..])) + multiset(AddressesOf(txs[j]))
  {
    WithoutOne(txs, j);
    AddressesSplit(txs[..j] + [txs[j]], txs[j + 1..]);
    AddressesLast(txs[..j], txs[j]);
    AddressesSplit(txs[..j], txs[j + 1..]);
    MiddleOut(Addresses(txs[..j]), AddressesOf(txs[j]), Addresses(txs[j + 1..]));
  }

  lemma {:induction false} ReorderedAddresses(a: seq<Transaction>, b: seq<Transaction>)
    requires multiset(a) == multiset(b)
    ensures multiset(Addresses(a)) == multiset(Addresses(b))
    decreases |a|
  {
    if a == [] {
      assert |multiset(b)| == 0;
    } else {
      var n := |a| - 1;
      var rest := SameWithoutLast(a, b);
      ReorderedAddresses(a[..n], b[..rest] + b[rest + 1..]);
      AddressesWithout(b, rest);
    }
  }

  lemma SameWithoutLast<T(!new)>(a: seq<T>, b: seq<T>) returns (j: nat)
    requires multiset(a) == multiset(b) && a != []
    ensures j < |b| && b[j] == a[|a| - 1] && multiset(a[..|a| - 1]) == multiset(b[..j] + b[j + 1..])
  {
    var n := |a| - 1;
    assert a == a[..n] + [a[n]] && a[n] in multiset(b);
    assert multiset(a) == multiset(a[..n]) + multiset{a[n]};
    j :| 0 <= j < |b| && b[j] == a[n];
    WithoutOne(b, j);
    SameRest(multiset(a[..n]), multiset(b[..j] + b[j + 1..]), a[n]);
  }

  lemma SameRest<T>(m: multiset<T>, n: multiset<T>, x: T)
    requires m + multiset{x} == n + multiset{x}
    ensures m == n
  {
    assert m == m + multiset{x} - multiset{x};
    assert n == n + multiset{x} - multiset{x};
  }

  /** Reordering the transactions does not change the filter. */
  lemma OrderDoesNotMatter(sha: Digest, sizing: Sizing, a: seq<Transaction>, b: seq<Transaction>, f: AddressFilter,
      g: AddressFilter)
    requires multiset(a) == multiset(b)
    requires IsFilter(sha, sizing, Addresses(a), f) && IsFilter(sha, sizing, Addresses(b), g)
    ensures f == g
  {
    ReorderedAddresses(a, b);
    var m := multiset(Addresses(a));
    assert |Addresses(a)| == |m| == |Addresses(b)|;
    assert forall x :: x in Addresses(a) <==> x in m;
    FilterIsUnique(sha, sizing, Addresses(a), Addresses(b), f, g);
  }

  // ---- Building the filter ----

  method LittleEndianPrefix(bytes: Bytes32) returns (out: nat)
    ensures out == LeValue(bytes[..8])
  {
    out := 0;
    ghost var p := 1;
    for i := 0 to 8
      invariant out == LeValue(bytes[..i]) && p == Pow(0x100, i)
    {
      LeSnoc(bytes[..i], bytes[i]);
      assert bytes[..i + 1] == bytes[..i] + [bytes[i]];
      out := out + bytes[i] * Pow(0x100, i);
      p := 0x100 * p;
    }
  }

  method FilterIndex(sha: Digest, address: Bytes32, i: u32) returns (index: nat)
    ensures index == Index(sha, address, i)
  {
    var data: seq<byte> := address;
    for k := 0 to 4
      invariant data == address + LittleEndian(i, 4)[..k]
    {
      data := data + [ShiftRight8(i, k) % 0x100];
    }
    assert LittleEndian(i, 4)[..4] == LittleEndian(i, 4);
    index := LittleEndianPrefix(sha(data));
  }

  lemma AsksNext(sha: Digest, numBits: nat, i: u32, address: Bytes32, n: nat)
    requires numBits > 0
    ensures Asks(sha, numBits, i + 1, address, n)
       <==> Asks(sha, numBits, i, address, n) || Index(sha, address, i) % numBits == n
  {
  }

  method Insert(sha: Digest, bits: array<byte>, numBits: u64, numHashes: u32, address: Bytes32,
      ghost addresses: seq<Bytes32>)
    requires bits.Length == (numBits + 7) / 8
    requires numBits > 0 ==> Exact(sha, bits[..], numBits, numHashes, addresses)
    modifies bits
    ensures numBits > 0 ==> Exact(sha, bits[..], numBits, numHashes, addresses + [address])
  {
    if numBits == 0 {
      return;
    }
    ghost var before := bits[..];
    var i: u32 := 0;
    while i < numHashes
      invariant i <= numHashes
      invariant forall n: nat :: n < 8 * bits.Length ==>
                  (BitAt(bits[..], n) <==> BitAt(before, n) || Asks(sha, numBits, i, address, n))
    {
      var index := FilterIndex(sha, address, i);
      ghost var middle := bits[..];
      SetBit(bits, index % numBits);
      forall n: nat | n < 8 * bits.Length
        ensures BitAt(bits[..], n) <==> BitAt(before, n) || Asks(sha, numBits, i + 1, address, n)
      {
        AsksNext(sha, numBits, i, address, n);
        assert BitAt(middle, n) <==> BitAt(before, n) || Asks(sha, numBits, i, address, n);
      }
      i := i + 1;
    }
    OneMoreAddress(sha, before, bits[..], numBits, numHashes, address, addresses);
  }

  lemma OneMoreAddress(sha: Digest, before: seq<byte>, after: seq<byte>, numBits: nat, numHashes: nat,
      address: Bytes32, addresses: seq<Bytes32>)
    requires numBits > 0 && |after| == |before| && Exact(sha, before, numBits, numHashes, addresses)
    requires forall n: nat :: n < 8 * |after| ==>
               (BitAt(after, n) <==> BitAt(before, n) || Asks(sha, numBits, numHashes, address, n))
    ensures Exact(sha, after, numBits, numHashes, addresses + [address])
  {
    forall n: nat | n < 8 * |after|
      ensures BitAt(after, n) <==> exists a :: a in addresses + [address] && Asks(sha, numBits, numHashes, a, n)
    {
      assert address in addresses + [address];
      assert forall a :: a in addresses + [address] <==> a in addresses || a == address;
    }
  }

  method CountAddresses(txs: seq<Transaction>) returns (count: nat)
    ensures count == |Addresses(txs)|
  {
    count := 0;
    for t := 0 to |txs|
      invariant count == |Addresses(txs[..t])|
    {
      assert txs[..t + 1][..t] == txs[..t];
      count := count + |txs[t].inputs|;
      count := count + |txs[t].outputs|;
    }
    assert txs[..|txs|] == txs;
  }

  method InsertTransaction(sha: Digest, bits: array<byte>, numBits: u64, numHashes: u32, tx: Transaction,
      ghost addresses: seq<Bytes32>)
    requires bits.Length == (numBits + 7) / 8
    requires numBits > 0 ==> Exact(sha, bits[..], numBits, numHashes, addresses)
    modifies bits
    ensures numBits > 0 ==> Exact(sha, bits[..], numBits, numHashes, addresses + AddressesOf(tx))
  {
    ghost var seen := addresses;
    for k := 0 to |tx.inputs|
      invariant seen == addresses + InputOwners(tx.inputs[..k])
      invariant numBits > 0 ==> Exact(sha, bits[..], numBits, numHashes, seen)
    {
      Insert(sha, bits, numBits, numHashes, tx.inputs[k].outputOwner, seen);
      assert tx.inputs[..k + 1][..k] == tx.inputs[..k];
      Assoc(addresses, InputOwners(tx.inputs[..k]), [tx.inputs[k].outputOwner]);
      seen := seen + [tx.inputs[k].outputOwner];
    }
    assert tx.inputs[..|tx.inputs|] == tx.inputs;
    ghost var owners := seen;
    for k := 0 to |tx.outputs|
      invariant seen == owners + Receivers(tx.outputs[..k])
      invariant numBits > 0 ==> Exact(sha, bits[..], numBits, numHashes, seen)
    {
      Insert(sha, bits, numBits, numHashes, tx.outputs[k].receiver, seen);
      assert tx.outputs[..k + 1][..k] == tx.outputs[..k];
      Assoc(owners, Receivers(tx.outputs[..k]), [tx.outputs[k].receiver]);
      seen := seen + [tx.outputs[k].receiver];
    }
    assert tx.outputs[..|tx.outputs|] == tx.outputs;
    Assoc(addresses, InputOwners(tx.inputs), Receivers(tx.outputs));
  }

  method BuildAddressFilter(sha: Digest, sizing: Sizing, txs: seq<Transaction>) returns (filter: AddressFilter)
    requires forall n :: sizing(n).0 + 7 < TWO_TO_THE_64
    ensures IsFilter(sha, sizing, Addresses(txs), filter)
  {
    var count := CountAddresses(txs);
    if count == 0 {
      return AddressFilter([], 0, 0);
    }
    var (numBits, numHashes) := sizing(count);
    var bits := new byte[(numBits + 7) / 8](_ => 0);
    if numBits > 0 {
      NothingAsked(sha, bits[..], numBits, numHashes);
    }
    for t := 0 to |txs|
      invariant numBits > 0 ==> Exact(sha, bits[..], numBits, numHashes, Addresses(txs[..t]))
    {
      InsertTransaction(sha, bits, numBits, numHashes, txs[t], Addresses(txs[..t]));
      assert txs[..t + 1][..t] == txs[..t];
    }
    assert txs[..|txs|] == txs;
    filter := AddressFilter(bits[..], numBits, numHashes);
  }

  lemma NothingAsked(sha: Digest, bits: seq<byte>, numBits: nat, numHashes: nat)
    requires numBits > 0 && forall i :: 0 <= i < |bits| ==> bits[i] == 0
    ensures Exact(sha, bits, numBits, numHashes, [])
  {
    forall n: nat | n < 8 * |bits|
      ensures !BitAt(bits, n)
    {
      ZeroHasNoBit(n % 8);
    }
  }

  // ---- Trimming expired transactions ----

  predicate Expired(tx: Transaction, now: u64) {
    (tx.timestamp + EXPIRATION_TIME_SECONDS + 10) % TWO_TO_THE_64 < now
  }

  /** The transactions that stay, in order. */
  function Kept(txs: seq<Transaction>, now: u64): (kept: seq<Transaction>)
    ensures |kept| <= |txs|
  {
    if txs == [] then []
    else Kept(txs[..|txs| - 1], now) + (if Expired(txs[|txs| - 1], now) then [] else [txs[|txs| - 1]])
  }

  /** Each transaction stays as often as it was there, or not at all if it has expired. */
  lemma {:induction false} KeptCounts(txs: seq<Transaction>, now: u64, tx: Transaction)
    ensures multiset(Kept(txs, now))[tx] == if Expired(tx, now) then 0 else multiset(txs)[tx]
  {
    if txs != [] {
      var n := |txs| - 1;
      KeptCounts(txs[..n], now, tx);
      assert txs == txs[..n] + [txs[n]];
    }
  }

  lemma {:induction false} KeptAll(txs: seq<Transaction>, now: u64)
    ensures |Kept(txs, now)| == |txs| <==> Kept(txs, now) == txs
    ensures Kept(txs, now) == txs <==> forall i :: 0 <= i < |txs| ==> !Expired(txs[i], now)
  {
    if txs != [] {
      var n := |txs| - 1;
      KeptAll(txs[..n], now);
      assert txs == txs[..n] + [txs[n]];
      if forall i :: 0 <= i < n ==> !Expired(txs[i], now) {
        assert Kept(txs[..n], now) == txs[..n];
      } else {
        var i :| 0 <= i < n && Expired(txs[i], now);
        assert txs[..n][i] == txs[i];
      }
    }
  }

  /** The root and the filter belong to the transactions. */
  ghost predicate Consistent(sha: Digest, sizing: Sizing, block: Block) {
    && block.meta.merkleTreeRoot == Root(sha, block.transactions)
    && IsFilter(sha, sizing, Addresses(block.transactions), block.meta.addressFilter)
  }

  method TrimExpiredTransactions(sha: Digest, sizing: Sizing, block: Block, now: u64)
      returns (trimmed: Block, removed: bool)
    requires forall n :: sizing(n).0 + 7 < TWO_TO_THE_64
    ensures trimmed.transactions == Kept(block.transactions, now)
    ensures removed <==> exists i :: 0 <= i < |block.transactions| && Expired(block.transactions[i], now)
    ensures !removed ==> trimmed == block
    ensures removed || Consistent(sha, sizing, block) ==> Consistent(sha, sizing, trimmed)
    ensures trimmed.(transactions := block.transactions, meta := block.meta) == block
    ensures trimmed.meta.(merkleTreeRoot := block.meta.merkleTreeRoot, addressFilter := block.meta.addressFilter)
         == block.meta
  {
    var txs := block.transactions;
    var kept := [];
    for i := 0 to |txs|
      invariant kept == Kept(txs[..i], now)
    {
      assert txs[..i + 1][..i] == txs[..i];
      if !((txs[i].timestamp + EXPIRATION_TIME_SECONDS + 10) % TWO_TO_THE_64 < now) {
        kept := kept + [txs[i]];
      }
    }
    assert txs[..|txs|] == txs;
    KeptAll(txs, now);
    trimmed := block.(transactions := kept);
    removed := |kept| != |txs|;
    if removed {
      var root := BuildMerkleRoot(sha, kept);
      var filter := BuildAddressFilter(sha, sizing, kept);
      trimmed := trimmed.(meta := trimmed.meta.(merkleTreeRoot := root, addressFilter := filter));
    }
  }
}
