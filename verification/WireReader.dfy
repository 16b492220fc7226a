/** What the reader of blocks accepts, and what it makes of it. */
module WireReader {
  import opened Machine
  import opened Json
  import opened Chain
  import opened Wire
  import Base36
  import Radix
  import Doubles

  // ---- What a JSON value stands for ----

  /** An integer of either kind, or a double that lies between `n` and the next whole number. */
  predicate NumberIs(v: Json, n: u64) {
    (v.Uint64? && v.u == n) || (v.Int64? && v.i == n) || (v.Double? && Doubles.LiesAt(v.d, n))
  }

  /** A text that, in lower case and without leading zeros, is the text of the bytes. */
  predicate TextIs(v: Json, bytes: seq<byte>) {
    v.Str? && v.s != "" && Base36.ValidText(v.s) && Base36.Canonical(v.s) == Base36.EncodeText(bytes)
  }

  predicate OptionIs(v: Json, data: Option<seq<byte>>) {
    if data.None? then v == Null else TextIs(v, data.value)
  }

  /** A number reduced modulo `modulus`. */
  ghost predicate Reduced(v: Json, modulus: nat, n: nat)
    requires modulus > 0
  {
    exists m: u64 :: NumberIs(v, m) && m % modulus == n
  }

  ghost predicate ByteIs(v: Json, b: byte) {
    Reduced(v, 0x100, b)
  }

  predicate ListIs<T>(v: Json, xs: seq<T>, describes: (Json, T) -> bool) {
    v.Arr? && |v.items| == |xs| && forall i :: 0 <= i < |xs| ==> describes(v.items[i], xs[i])
  }

  /** The field that an object has under a key. */
  function At(v: Json, key: string): Option<Json> {
    if v.Obj? then Find(v.fields, key) else None
  }

  predicate NumberAt(v: Json, key: string, n: u64) {
    At(v, key).Some? && NumberIs(At(v, key).value, n)
  }

  predicate TextAt(v: Json, key: string, bytes: seq<byte>) {
    At(v, key).Some? && TextIs(At(v, key).value, bytes)
  }

  predicate OptionAt(v: Json, key: string, data: Option<seq<byte>>) {
    At(v, key).Some? && OptionIs(At(v, key).value, data)
  }

  predicate ListAt<T>(v: Json, key: string, xs: seq<T>, describes: (Json, T) -> bool) {
    At(v, key).Some? && ListIs(At(v, key).value, xs, describes)
  }

  predicate InputIs(v: Json, input: TransactionInput) {
    && TextAt(v, "transaction_id", input.transactionId) && NumberAt(v, "output_index", input.outputIndex)
    && OptionAt(v, "signature", input.signature) && TextAt(v, "output_owner", input.outputOwner)
  }

  predicate OutputIs(v: Json, output: TransactionOutput) {
    NumberAt(v, "amount", output.amount) && TextAt(v, "receiver", output.receiver)
  }

  /** The fields that a transaction is read from; others do not matter. */
  predicate TransactionIs(v: Json, tx: Transaction) {
    && ListAt(v, "inputs", tx.inputs, InputIs) && ListAt(v, "outputs", tx.outputs, OutputIs)
    && OptionAt(v, "transaction_id", tx.transactionId)
    && NumberAt(v, "nonce", tx.nonce) && NumberAt(v, "timestamp", tx.timestamp)
  }

  ghost predicate FilterIs(v: Json, filter: AddressFilter) {
    && NumberAt(v, "num_bits", filter.numBits)
    && At(v, "num_hashes").Some? && Reduced(At(v, "num_hashes").value, TWO_TO_THE_32, filter.numHashes)
    && ListAt(v, "bits", filter.bits, ByteIs)
  }

  ghost predicate MetaIs(v: Json, meta: BlockMeta) {
    && ListAt(v, "block_pow_difficulty", meta.blockPowDifficulty, ByteIs)
    && ListAt(v, "tx_pow_difficulty", meta.txPowDifficulty, ByteIs)
    && TextAt(v, "previous_block", meta.previousBlock) && OptionAt(v, "hash", meta.hash)
    && ListAt(v, "merkle_tree_root", meta.merkleTreeRoot, ByteIs)
    && At(v, "address_inclusion_filter").Some? && FilterIs(At(v, "address_inclusion_filter").value, meta.addressFilter)
  }

  ghost predicate BlockIs(v: Json, block: Block) {
    && NumberAt(v, "timestamp", block.timestamp) && NumberAt(v, "nonce", block.nonce)
    && ListAt(v, "transactions", block.transactions, TransactionIs)
    && At(v, "meta").Some? && MetaIs(At(v, "meta").value, block.meta)
  }

  // ---- Reading finds exactly what a value stands for ----

  lemma NumberReads(v: Json, n: u64)
    ensures AsUint64(v) == Ok(n) <==> NumberIs(v, n)
  {
    if v.Double? {
      Doubles.TruncatedIs(v.d, n);
    }
  }

  lemma ReducedReads(v: Json, modulus: nat, n: nat)
    requires modulus > 0
    ensures Reduced(v, modulus, n) <==> AsUint64(v).Ok? && AsUint64(v).value % modulus == n
  {
    forall m: u64
      ensures AsUint64(v) == Ok(m) <==> NumberIs(v, m)
    {
      NumberReads(v, m);
    }
    assert AsUint64(v).Ok? ==> NumberIs(v, AsUint64(v).value);
  }

  lemma ByteReads(v: Json, b: byte)
    ensures ByteOf(v) == Ok(b) <==> ByteIs(v, b)
  {
    ReducedReads(v, 0x100, b);
  }

  lemma TextReads(v: Json, len: nat, bytes: seq<byte>)
    requires |bytes| == len
    ensures BytesOf(v, len) == Ok(bytes) <==> TextIs(v, bytes)
  {
    if BytesOf(v, len) == Ok(bytes) {
      Base36.EncodeAfterDecode(v.s, len);
    } else if TextIs(v, bytes) {
      TextDecodes(v.s, bytes);
    }
  }

  /** A text with the right canonical form decodes to the bytes. */
  lemma TextDecodes(text: string, bytes: seq<byte>)
    requires text != "" && Base36.ValidText(text) && Base36.Canonical(text) == Base36.EncodeText(bytes)
    ensures Base36.DecodeText(text, |bytes|) == Ok(bytes)
  {
    var n, m := Radix.Value(36, Base36.DigitsOf(text)), Radix.Value(0x100, bytes);
    assert n == m by {
      Base36.TextOfValue(text);
      Base36.TextIsValid(n);
      Base36.TextIsValid(m);
    }
    Radix.ValueBound(0x100, bytes);
    Radix.ValueOfFixedDigits(0x100, |bytes|, n);
    Radix.ValueInjective(0x100, bytes, Radix.FixedDigits(0x100, |bytes|, n));
  }

  lemma Option32Reads(v: Json, data: Option<Bytes32>)
    ensures OptionBytes32Of(v) == Ok(data) <==> OptionIs(v, data)
  {
    if data.Some? {
      TextReads(v, 32, data.value);
    }
  }

  lemma Option64Reads(v: Json, data: Option<Bytes64>)
    ensures OptionBytes64Of(v) == Ok(data) <==> OptionIs(v, data)
  {
    if data.Some? {
      TextReads(v, 64, data.value);
    }
  }

  lemma Text32Reads(v: Json, data: Bytes32)
    ensures Bytes32Of(v) == Ok(data) <==> TextIs(v, data)
  {
    TextReads(v, 32, data);
  }

  /** Reading a list element by element. */
  lemma {:induction false} CollectReads<T(!new)>(items: seq<Json>, read: Json -> Read<T>, out: seq<T>, xs: seq<T>)
    ensures Collect(items, read, out) == Ok(out + xs)
       <==> |items| == |xs| && forall i :: 0 <= i < |xs| ==> read(items[i]) == Ok(xs[i])
  {
    if items == [] {
      assert |xs| == 0 ==> out + xs == out;
    } else if read(items[0]).Ok? {
      var x := read(items[0]).value;
      CollectStarts(items[1..], read, out + [x]);
      if xs != [] {
        CollectReads(items[1..], read, out + [x], xs[1..]);
        HeadAgrees(out, x, xs);
        if x == xs[0] && |items| == |xs| {
          TailAgrees(items, read, xs);
        }
      }
    }
  }

  lemma {:induction false} CollectStarts<T>(items: seq<Json>, read: Json -> Read<T>, out: seq<T>)
    ensures Collect(items, read, out).Ok? ==> out <= Collect(items, read, out).value
  {
    if items != [] && read(items[0]).Ok? {
      CollectStarts(items[1..], read, out + [read(items[0]).value]);
    }
  }

  lemma HeadAgrees<T>(out: seq<T>, x: T, xs: seq<T>)
    requires xs != []
    ensures (out + [x]) + xs[1..] == out + xs <==> x == xs[0]
    ensures out + [x] <= out + xs ==> x == xs[0]
  {
    assert ((out + [x]) + xs[1..])[|out|] == x && (out + xs)[|out|] == xs[0];
    if x == xs[0] {
      assert xs == [x] + xs[1..];
    }
  }

  lemma TailAgrees<T>(items: seq<Json>, read: Json -> Read<T>, xs: seq<T>)
    requires items != [] && xs != [] && |items| == |xs| && read(items[0]) == Ok(xs[0])
    ensures (forall i :: 0 <= i < |xs| ==> read(items[i]) == Ok(xs[i]))
       <==> forall i :: 0 <= i < |xs[1..]| ==> read(items[1..][i]) == Ok(xs[1..][i])
  {
    if forall i :: 0 <= i < |xs[1..]| ==> read(items[1..][i]) == Ok(xs[1..][i]) {
      forall i | 0 <= i < |xs|
        ensures read(items[i]) == Ok(xs[i])
      {
        if i > 0 {
          assert items[1..][i - 1] == items[i] && xs[1..][i - 1] == xs[i];
        }
      }
    }
  }

  /** Reading a list whose elements stand for exactly what they are read as. */
  lemma ListReads<T(!new)>(v: Json, read: Json -> Read<T>, describes: (Json, T) -> bool, xs: seq<T>)
    requires forall item, x :: read(item) == Ok(x) <==> describes(item, x)
    ensures v.Arr? ==> (Collect(v.items, read, []) == Ok(xs) <==> ListIs(v, xs, describes))
  {
    if v.Arr? {
      CollectReads(v.items, read, [], xs);
      assert [] + xs == xs;
    }
  }

  /** What a list at a key is read as. */
  lemma ArrayField<T(!new)>(v: Json, key: string, read: Json -> Read<T>, describes: (Json, T) -> bool, xs: seq<T>)
    requires v.Obj? && forall item, x :: read(item) == Ok(x) <==> describes(item, x)
    ensures RequireArray(v.fields, key).Ok? && Collect(RequireArray(v.fields, key).value, read, []) == Ok(xs)
       <==> ListAt(v, key, xs, describes)
  {
    if At(v, key).Some? {
      ListReads(At(v, key).value, read, describes, xs);
    }
  }

  lemma NumberField(v: Json, key: string, n: u64)
    requires v.Obj?
    ensures RequireUint64(v.fields, key) == Ok(n) <==> NumberAt(v, key, n)
  {
    if At(v, key).Some? {
      NumberReads(At(v, key).value, n);
    }
  }

  lemma Text32Field(v: Json, key: string, data: Bytes32)
    requires v.Obj?
    ensures Require(v.fields, key).Ok? && Bytes32Of(Require(v.fields, key).value) == Ok(data) <==> TextAt(v, key, data)
  {
    if At(v, key).Some? {
      Text32Reads(At(v, key).value, data);
    }
  }

  lemma Option32Field(v: Json, key: string, data: Option<Bytes32>)
    requires v.Obj?
    ensures Require(v.fields, key).Ok? && OptionBytes32Of(Require(v.fields, key).value) == Ok(data)
       <==> OptionAt(v, key, data)
  {
    if At(v, key).Some? {
      Option32Reads(At(v, key).value, data);
    }
  }

  lemma Option64Field(v: Json, key: string, data: Option<Bytes64>)
    requires v.Obj?
    ensures Require(v.fields, key).Ok? && OptionBytes64Of(Require(v.fields, key).value) == Ok(data)
       <==> OptionAt(v, key, data)
  {
    if At(v, key).Some? {
      Option64Reads(At(v, key).value, data);
    }
  }

  lemma InputReads(v: Json, input: TransactionInput)
    ensures InputOf(v) == Ok(input) <==> InputIs(v, input)
  {
    if v.Obj? {
      Text32Field(v, "transaction_id", input.transactionId);
      NumberField(v, "output_index", input.outputIndex);
      Option64Field(v, "signature", input.signature);
      Text32Field(v, "output_owner", input.outputOwner);
    }
  }

  lemma OutputReads(v: Json, output: TransactionOutput)
    ensures OutputOf(v) == Ok(output) <==> OutputIs(v, output)
  {
    if v.Obj? {
      NumberField(v, "amount", output.amount);
      Text32Field(v, "receiver", output.receiver);
    }
  }

  lemma AllInputsRead()
    ensures forall v, input :: InputOf(v) == Ok(input) <==> InputIs(v, input)
  {
    forall v, input
      ensures InputOf(v) == Ok(input) <==> InputIs(v, input)
    {
      InputReads(v, input);
    }
  }

  lemma AllOutputsRead()
    ensures forall v, output :: OutputOf(v) == Ok(output) <==> OutputIs(v, output)
  {
    forall v, output
      ensures OutputOf(v) == Ok(output) <==> OutputIs(v, output)
    {
      OutputReads(v, output);
    }
  }

  /** A value is read as a transaction exactly if it stands for it. */
  lemma TransactionReads(v: Json, tx: Transaction)
    ensures TransactionOf(v) == Ok(tx) <==> TransactionIs(v, tx)
  {
    if v.Obj? {
      AllInputsRead();
      ArrayField(v, "inputs", InputOf, InputIs, tx.inputs);
      AllOutputsRead();
      ArrayField(v, "outputs", OutputOf, OutputIs, tx.outputs);
      Option32Field(v, "transaction_id", tx.transactionId);
      NumberField(v, "nonce", tx.nonce);
      NumberField(v, "timestamp", tx.timestamp);
    }
  }

  lemma AllTransactionsRead()
    ensures forall v, tx :: TransactionOf(v) == Ok(tx) <==> TransactionIs(v, tx)
  {
    forall v, tx
      ensures TransactionOf(v) == Ok(tx) <==> TransactionIs(v, tx)
    {
      TransactionReads(v, tx);
    }
  }

  lemma AllBytesRead()
    ensures forall v, b: byte :: ByteOf(v) == Ok(b) <==> ByteIs(v, b)
  {
    forall v, b: byte
      ensures ByteOf(v) == Ok(b) <==> ByteIs(v, b)
    {
      ByteReads(v, b);
    }
  }

  lemma BytesRead(v: Json, bytes: seq<byte>)
    ensures ByteListOf(v) == Ok(bytes) <==> ListIs(v, bytes, ByteIs)
  {
    AllBytesRead();
    ListReads(v, ByteOf, ByteIs, bytes);
  }

  lemma DifficultyReads(v: Json, bytes: Bytes32)
    ensures DifficultyOf(v) == Ok(bytes) <==> ListIs(v, bytes, ByteIs)
  {
    AllBytesRead();
    ListReads(v, ByteOf, ByteIs, bytes);
  }

  lemma FilterReads(v: Json, filter: AddressFilter)
    ensures FilterOf(v) == Ok(filter) <==> FilterIs(v, filter)
  {
    if v.Obj? {
      NumberField(v, "num_bits", filter.numBits);
      if At(v, "num_hashes").Some? {
        ReducedReads(At(v, "num_hashes").value, TWO_TO_THE_32, filter.numHashes);
      }
      if At(v, "bits").Some? {
        BytesRead(At(v, "bits").value, filter.bits);
      }
    }
  }

  lemma DifficultyField(v: Json, key: string, bytes: Bytes32)
    requires v.Obj?
    ensures Require(v.fields, key).Ok? && DifficultyOf(Require(v.fields, key).value) == Ok(bytes)
       <==> ListAt(v, key, bytes, ByteIs)
  {
    if At(v, key).Some? {
      DifficultyReads(At(v, key).value, bytes);
    }
  }

  lemma MetaReads(v: Json, meta: BlockMeta)
    ensures MetaOf(v) == Ok(meta) <==> MetaIs(v, meta)
  {
    if v.Obj? {
      DifficultyField(v, "block_pow_difficulty", meta.blockPowDifficulty);
      DifficultyField(v, "tx_pow_difficulty", meta.txPowDifficulty);
      Text32Field(v, "previous_block", meta.previousBlock);
      Option32Field(v, "hash", meta.hash);
      DifficultyField(v, "merkle_tree_root", meta.merkleTreeRoot);
      if At(v, "address_inclusion_filter").Some? {
        FilterReads(At(v, "address_inclusion_filter").value, meta.addressFilter);
      }
    }
  }

  /** A value is read as a block exactly if it stands for it: reading fails exactly if it stands for none. */
  lemma BlockReads(v: Json, block: Block)
    ensures BlockOf(v) == Ok(block) <==> BlockIs(v, block)
  {
    if v.Obj? {
      NumberField(v, "timestamp", block.timestamp);
      NumberField(v, "nonce", block.nonce);
      AllTransactionsRead();
      ArrayField(v, "transactions", TransactionOf, TransactionIs, block.transactions);
      if At(v, "meta").Some? {
        MetaReads(At(v, "meta").value, block.meta);
      }
    }
  }

  lemma AllBlocksRead()
    ensures forall v, block :: BlockOf(v) == Ok(block) <==> BlockIs(v, block)
  {
    forall v, block
      ensures BlockOf(v) == Ok(block) <==> BlockIs(v, block)
    {
      BlockReads(v, block);
    }
  }

  // ---- Byte lists ----

  /** A double that is the whole number `n`. */
  predicate IsWhole(d: Doubles.Binary64, n: nat) {
    !Doubles.BelowZero(d) && d.units == Doubles.Times(n, 2, 1074)
  }

  predicate Written(v: Json, b: byte) {
    (v.Uint64? && v.u == b) || (v.Int64? && v.i == b) || (v.Double? && IsWhole(v.d, b))
  }

  /** A whole number below 256. */
  ghost predicate Small(v: Json) {
    exists b: byte :: Written(v, b)
  }

  lemma WrittenIs(v: Json, b: byte, c: byte)
    requires ByteIs(v, b) && Written(v, c)
    ensures b == c
  {
    var m: u64 :| NumberIs(v, m) && m % 0x100 == b;
    if v.Double? {
      Doubles.OverIs(v.d.units, 2, 1074, m);
      Doubles.Cancels(c, 2, 1074, 0);
    }
  }

  /** A list of bytes is read as it is written exactly if every entry is a whole number below 256. */
  lemma BytesAsWritten(v: Json, bytes: seq<byte>)
    requires ByteListOf(v) == Ok(bytes)
    ensures ListIs(v, bytes, Written) <==> forall i :: 0 <= i < |v.items| ==> Small(v.items[i])
  {
    BytesRead(v, bytes);
    assert forall i :: 0 <= i < |bytes| ==> ByteIs(v.items[i], bytes[i]);
    if ListIs(v, bytes, Written) {
      assert forall i :: 0 <= i < |bytes| ==> Written(v.items[i], bytes[i]);
    } else if forall i :: 0 <= i < |v.items| ==> Small(v.items[i]) {
      forall i | 0 <= i < |bytes|
        ensures Written(v.items[i], bytes[i])
      {
        assert Small(v.items[i]);
        var c: byte :| Written(v.items[i], c);
        WrittenIs(v.items[i], bytes[i], c);
      }
    }
  }

  /** A larger entry is reduced without an error. */
  lemma LargeEntry(n: u64, b: byte)
    requires n >= 0x100 && b == n % 0x100
    ensures ByteListOf(Arr([Uint64(n)])) == Ok([b]) && !Written(Uint64(n), b)
  {
    assert NumberIs(Uint64(n), n);
    BytesRead(Arr([Uint64(n)]), [b]);
  }

  // ---- The loops that read the lists ----

  /** Reads each element into a growing vector. */
  method ReadAll<T>(items: seq<Json>, f: Json -> Read<T>) returns (r: Read<seq<T>>)
    ensures r == Collect(items, f, [])
  {
    var out := [];
    assert items[0..] == items;
    for i := 0 to |items|
      invariant Collect(items[i..], f, out) == Collect(items, f, [])
    {
      assert items[i..][1..] == items[i + 1..];
      var x :- f(items[i]);
      out := out + [x];
    }
    r := Ok(out);
  }

  method TransactionFromJson(v: Json) returns (r: Read<Transaction>)
    ensures r == TransactionOf(v)
    ensures forall tx :: r == Ok(tx) <==> TransactionIs(v, tx)
  {
    AllTransactionsRead();
    var obj :- AsObject(v);
    var inputItems :- RequireArray(obj, "inputs");
    var inputs :- ReadAll(inputItems, InputOf);
    var outputItems :- RequireArray(obj, "outputs");
    var outputs :- ReadAll(outputItems, OutputOf);
    var idValue :- Require(obj, "transaction_id");
    var id :- OptionBytes32Of(idValue);
    var nonce :- RequireUint64(obj, "nonce");
    var timestamp :- RequireUint64(obj, "timestamp");
    r := Ok(Transaction(inputs, outputs, id, nonce, timestamp));
  }

  method ReadTransactions(items: seq<Json>) returns (r: Read<seq<Transaction>>)
    ensures r == Collect(items, TransactionOf, [])
  {
    var out := [];
    assert items[0..] == items;
    for i := 0 to |items|
      invariant Collect(items[i..], TransactionOf, out) == Collect(items, TransactionOf, [])
    {
      assert items[i..][1..] == items[i + 1..];
      var tx :- TransactionFromJson(items[i]);
      out := out + [tx];
    }
    r := Ok(out);
  }

  method BlockFromJson(v: Json) returns (r: Read<Block>)
    ensures r == BlockOf(v)
    ensures forall block :: r == Ok(block) <==> BlockIs(v, block)
  {
    AllBlocksRead();
    var obj :- AsObject(v);
    var timestamp :- RequireUint64(obj, "timestamp");
    var nonce :- RequireUint64(obj, "nonce");
    var items :- RequireArray(obj, "transactions");
    var transactions :- ReadTransactions(items);
    var metaValue :- Require(obj, "meta");
    var meta :- MetaOf(metaValue);
    r := Ok(Block(transactions, timestamp, nonce, meta));
  }
}
