/** What a stratum client makes of the messages of a pool. */
module StratumParse {
  import opened Machine
  import opened Radix
  import opened Bincode
  import opened Decode
  import opened Json
  import opened Hex
  import opened StratumJobs
  import opened JsonStable
  import Doubles

  /** The one computation in extended precision: 2^64 - 1 divided by a number, truncated, and at most 2^64 - 1. */
  datatype Floats = Floats(quotient: Json -> u64)

  predicate IsNumber(v: Json) {
    v.Int64? || v.Uint64? || v.Double?
  }

  /** The conversion of a double of 2^64 or more is undefined; it gives no number here. */
  function NumberToU64(v: Json): Option<u64> {
    match v
    case Uint64(u) => Some(u)
    case Int64(i) => if i < 0 then None else Some(i)
    case Double(d) => Doubles.Truncated(d)
    case _ => None
  }

  predicate Positive(v: Json) {
    match v
    case Uint64(u) => u > 0
    case Int64(i) => i > 0
    case Double(d) => !d.negative && d.units > 0
    case _ => false
  }

  predicate NonZero(v: Json) {
    match v
    case Uint64(u) => u != 0
    case Int64(i) => i != 0
    case Double(d) => d.units != 0
    case _ => false
  }

  /** The target for a difficulty, which is zero exactly if the difficulty is not positive. */
  function TargetOf(f: Floats, v: Json): (target: u64)
    ensures target > 0 <==> Positive(v)
  {
    if !Positive(v) then 0 else if f.quotient(v) < 1 then 1 else f.quotient(v)
  }

  function RpcId(v: Json): Option<string> {
    match v
    case Uint64(u) => Some(NatText(u))
    case Int64(i) => Some(IntText(i))
    case Str(s) => Some(s)
    case _ => None
  }

  function FindString(obj: seq<Field>, key: string): Option<string> {
    var v :- Find(obj, key);
    if v.Str? then Some(v.s) else None
  }

  // ---- Targets ----

  function Prefix8(bytes: seq<byte>): seq<byte> {
    if |bytes| <= 8 then bytes else bytes[..8]
  }

  /** The first eight bytes as a number, least significant first. */
  method TargetPrefixLe(bytes: seq<byte>) returns (value: nat)
    ensures value == LeValue(Prefix8(bytes))
  {
    var n := if |bytes| < 8 then |bytes| else 8;
    value := 0;
    for i := 0 to n
      invariant value == LeValue(bytes[..i])
    {
      LeSnoc(bytes[..i], bytes[i]);
      assert bytes[..i + 1] == bytes[..i] + [bytes[i]];
      value := value + bytes[i] * Pow(0x100, i);
    }
    assert bytes[..n] == Prefix8(bytes);
  }

  /** The first eight bytes as a number, most significant first. */
  method TargetPrefixBe(bytes: seq<byte>) returns (value: nat)
    ensures value == Value(0x100, Prefix8(bytes))
  {
    var n := if |bytes| < 8 then |bytes| else 8;
    value := 0;
    for i := 0 to n
      invariant value == Value(0x100, bytes[..i])
    {
      assert bytes[..i + 1][..i] == bytes[..i];
      value := value * 0x100 + bytes[i];
    }
    assert bytes[..n] == Prefix8(bytes);
  }

  lemma PrefixFits(s: seq<byte>)
    requires |s| <= 8
    ensures LeValue(s) < TWO_TO_THE_64 && Value(0x100, s) < TWO_TO_THE_64
  {
    var width: nat :| width == 8;
    LeBound(s);
    ValueBound(0x100, s);
    PowMonotone(0x100, |s|, width);
    EightBytes(width);
  }

  lemma EightBytes(width: nat)
    requires width == 8
    ensures Pow(0x100, width) == TWO_TO_THE_64
  {
    PowAdd(0x100, 4, 4);
  }

  function LePrefix(bytes: seq<byte>): u64 {
    PrefixFits(Prefix8(bytes));
    LeValue(Prefix8(bytes))
  }

  function BePrefix(bytes: seq<byte>): u64 {
    PrefixFits(Prefix8(bytes));
    Value(0x100, Prefix8(bytes))
  }

  /** The target that a difficulty gives; zero if there is none. */
  function DifficultyTarget(f: Floats, difficulty: Option<Json>, obj: seq<Field>): u64 {
    var own := Find(obj, "difficulty");
    if own.Some? && IsNumber(own.value) then TargetOf(f, own.value)
    else if difficulty.Some? then TargetOf(f, difficulty.value)
    else 0
  }

  /** Of the two readings of a long target, the one closer to the difficulty's target. */
  function Chosen(bytes: seq<byte>, diffTarget: u64): u64
    requires bytes != []
  {
    if diffTarget != 0
      then if Distance(BePrefix(bytes), diffTarget) < Distance(LePrefix(bytes), diffTarget) then BePrefix(bytes)
           else LePrefix(bytes)
    else if bytes[0] == 0 && BePrefix(bytes) != 0 then BePrefix(bytes)
    else LePrefix(bytes)
  }

  /** The 64-bit target of a job; zero if it has none. */
  function TargetLe(f: Floats, difficulty: Option<Json>, obj: seq<Field>): u64 {
    var diffTarget := DifficultyTarget(f, difficulty, obj);
    var text := FindString(obj, "target");
    var bytes := if text.Some? then ParsedHex(text.value) else None;
    if bytes.None? || bytes.value == [] then diffTarget
    else if |bytes.value| <= 8 then LePrefix(bytes.value)
    else if Chosen(bytes.value, diffTarget) != 0 then Chosen(bytes.value, diffTarget)
    else diffTarget
  }

  // ---- Jobs ----

  function HeightOf(obj: seq<Field>): u64 {
    match Find(obj, "height")
    case Some(Uint64(u)) => u
    case Some(Int64(i)) => if i >= 0 then i else 0
    case _ => 0
  }

  function CleanJobs(obj: seq<Field>): bool {
    var clean := Find(obj, "clean_jobs");
    if clean.None? then false
    else if clean.value.Bool? then clean.value.b
    else NonZero(clean.value)
  }

  function TargetBe(obj: seq<Field>): Option<Bytes32> {
    var text :- FindString(obj, "target");
    var bytes :- ParsedHex(text);
    if |bytes| == 32 then Some(bytes) else None
  }

  function NonceOffset(obj: seq<Field>): u32 {
    var own, reserved := Find(obj, "nonce_offset"), Find(obj, "reserved_offset");
    if own.Some? && own.value.Uint64? then own.value.u % TWO_TO_THE_32
    else if reserved.Some? && reserved.value.Uint64? then reserved.value.u % TWO_TO_THE_32
    else 39
  }

  function JobFromObject(f: Floats, difficulty: Option<Json>, obj: seq<Field>): Option<StratumJob> {
    var blobText :- FindString(obj, "blob");
    var jobId :- FindString(obj, "job_id");
    var blob :- ParsedHex(blobText);
    var offset := NonceOffset(obj);
    var targetLe := TargetLe(f, difficulty, obj);
    var targetBe := TargetBe(obj);
    if blob == [] || !SeemsToFit(offset, |blob|) then None
    else if targetLe == 0 && targetBe.None? then None
    else Some(StratumJob(jobId, blob, offset, targetLe, targetBe, HeightOf(obj), CleanJobs(obj)))
  }

  /** An accepted job has a blob, a target and the id it was announced with; and since the offset is added to in 32
      bits, it leaves room for the nonce exactly if the offset is below 2^32 - 4. */
  lemma AcceptedJobs(f: Floats, difficulty: Option<Json>, obj: seq<Field>)
    requires JobFromObject(f, difficulty, obj).Some?
    ensures var job := JobFromObject(f, difficulty, obj).value;
            && job.blob != [] && (job.targetBe.Some? || job.targetLe > 0)
            && FindString(obj, "job_id") == Some(job.jobId)
            && (|job.blob| < TWO_TO_THE_32 ==> (Usable(job) <==> job.nonceOffset < TWO_TO_THE_32 - 4))
  {
  }

  // ---- Announcing a job ----

  function TargetText(job: StratumJob): string {
    if job.targetBe.Some? then HexText(job.targetBe.value) else HexText(LittleEndian(job.targetLe, 8))
  }

  predicate HeightSaid(v: Option<Json>, height: u64) {
    match v
    case None => height == 0
    case Some(Uint64(u)) => u == height
    case Some(Int64(i)) => i == height
    case _ => false
  }

  predicate CleanSaid(v: Option<Json>, clean: bool) {
    match v
    case None => !clean
    case Some(Bool(b)) => b == clean
    case Some(Uint64(u)) => clean <==> u != 0
    case Some(Int64(i)) => clean <==> i != 0
    case _ => false
  }

  predicate OffsetSaid(own: Option<Json>, reserved: Option<Json>, offset: u32) {
    || own == Some(Uint64(offset))
    || (own == None && reserved == Some(Uint64(offset)))
    || (own == None && reserved == None && offset == 39)
  }

  /** An object that announces a job: what it says under each key, in any of the spellings. */
  predicate Announces(obj: seq<Field>, job: StratumJob) {
    && FindString(obj, "blob") == Some(HexText(job.blob)) && FindString(obj, "job_id") == Some(job.jobId)
    && FindString(obj, "target") == Some(TargetText(job))
    && OffsetSaid(Find(obj, "nonce_offset"), Find(obj, "reserved_offset"), job.nonceOffset)
    && HeightSaid(Find(obj, "height"), job.height) && CleanSaid(Find(obj, "clean_jobs"), job.cleanJobs)
  }

  /** The fullest such object. */
  function JobFields(job: StratumJob): seq<Field> {
    [Field("blob", Str(HexText(job.blob))), Field("clean_jobs", Bool(job.cleanJobs)),
     Field("height", Uint64(job.height)), Field("job_id", Str(job.jobId)),
     Field("nonce_offset", Uint64(job.nonceOffset)), Field("target", Str(TargetText(job)))]
  }

  lemma {:induction false} FindNth(fields: seq<Field>, i: nat, key: string)
    requires i < |fields| && fields[i].key == key && forall j :: 0 <= j < i ==> fields[j].key != key
    ensures Find(fields, key) == Some(fields[i].value)
  {
    if i > 0 {
      assert fields[0].key != key;
      FindNth(fields[1..], i - 1, key);
    }
  }

  lemma {:induction false} FindMissing(fields: seq<Field>, key: string)
    requires forall j :: 0 <= j < |fields| ==> fields[j].key != key
    ensures Find(fields, key) == None
  {
    if fields != [] {
      assert fields[0].key != key;
      FindMissing(fields[1..], key);
    }
  }

  lemma KeysDiffer()
    ensures "blob" != "clean_jobs" && "blob" != "height" && "blob" != "job_id" && "blob" != "nonce_offset"
    ensures "blob" != "target" && "clean_jobs" != "height" && "clean_jobs" != "job_id"
    ensures "clean_jobs" != "nonce_offset" && "clean_jobs" != "target" && "height" != "nonce_offset"
    ensures "job_id" != "nonce_offset" && "nonce_offset" != "target" && "blob" != "difficulty"
    ensures "clean_jobs" != "difficulty" && "job_id" != "difficulty" && "target" != "difficulty"
    ensures "nonce_offset" != "difficulty" && "height" != "difficulty" && "nonce_offset" != "target"
    ensures "job_id" != "target"
    ensures "height"[0] != "job_id"[0] && "height"[0] != "target"[0] && "job_id"[0] != "target"[0]
  {
    assert |"blob"| == 4 && |"height"| == |"job_id"| == |"target"| == 6;
    assert |"clean_jobs"| == |"difficulty"| == 10 && |"nonce_offset"| == 12;
    assert "clean_jobs"[0] == 'c' && "difficulty"[0] == 'd';
  }

  lemma JobFieldsAnnounce(job: StratumJob)
    ensures Announces(JobFields(job), job)
  {
    KeysDiffer();
    var fields := JobFields(job);
    FindNth(fields, 0, "blob");
    FindNth(fields, 1, "clean_jobs");
    FindNth(fields, 2, "height");
    FindNth(fields, 3, "job_id");
    FindNth(fields, 4, "nonce_offset");
    FindNth(fields, 5, "target");
  }

  /** The target of an announced job is read back; without a 256-bit target, so are its 64 bits. */
  lemma TargetReads(f: Floats, difficulty: Option<Json>, obj: seq<Field>, job: StratumJob)
    requires FindString(obj, "target") == Some(TargetText(job))
    ensures TargetBe(obj) == job.targetBe
    ensures job.targetBe.None? ==> TargetLe(f, difficulty, obj) == job.targetLe
  {
    if job.targetBe.Some? {
      HexReads(job.targetBe.value);
    } else {
      HexReads(LittleEndian(job.targetLe, 8));
      var width: nat :| width == 8;
      EightBytes(width);
      LeValueOf(job.targetLe, width);
    }
  }

  /** What an announced job must have to be read: a blob, an offset that, added to in 32 bits, seems to leave room, and
      a target. */
  predicate Readable(job: StratumJob) {
    job.blob != [] && SeemsUsable(job) && (job.targetBe.Some? || job.targetLe > 0)
  }

  /** Whatever the running difficulty, an announced job is read back as it is, except that the 64-bit target beside a
      256-bit one is read from the latter or the difficulty; and it is read exactly if it is readable. */
  lemma JobReads(f: Floats, difficulty: Option<Json>, obj: seq<Field>, job: StratumJob)
    requires Announces(obj, job)
    ensures JobFromObject(f, difficulty, obj)
         == if !Readable(job) then None
            else if job.targetBe.None? then Some(job)
            else Some(job.(targetLe := TargetLe(f, difficulty, obj)))
  {
    HexReads(job.blob);
    JobOfParts(f, difficulty, obj, HexText(job.blob), job.jobId, job.blob);
    PlainFields(obj, job);
    TargetReads(f, difficulty, obj, job);
  }

  lemma JobOfParts(f: Floats, difficulty: Option<Json>, obj: seq<Field>, text: string, jobId: string, blob: seq<byte>)
    requires FindString(obj, "blob") == Some(text) && FindString(obj, "job_id") == Some(jobId)
    requires ParsedHex(text) == Some(blob)
    ensures JobFromObject(f, difficulty, obj)
         == if || blob == [] || !SeemsToFit(NonceOffset(obj), |blob|)
               || (TargetLe(f, difficulty, obj) == 0 && TargetBe(obj).None?)
            then None
            else Some(StratumJob(jobId, blob, NonceOffset(obj), TargetLe(f, difficulty, obj), TargetBe(obj),
                                 HeightOf(obj), CleanJobs(obj)))
  {
  }

  lemma PlainFields(obj: seq<Field>, job: StratumJob)
    requires Announces(obj, job)
    ensures NonceOffset(obj) == job.nonceOffset && HeightOf(obj) == job.height && CleanJobs(obj) == job.cleanJobs
  {
  }

  /** Of the two readings of a long target, the one that is used is the nearer to the difficulty's target, if there is
      one; the first, if they are equally near. */
  lemma ChosenIsNearest(bytes: seq<byte>, diffTarget: u64)
    requires bytes != []
    ensures var le, be, chosen := LePrefix(bytes) as int, BePrefix(bytes) as int, Chosen(bytes, diffTarget) as int;
            && (chosen == le || chosen == be)
            && (diffTarget > 0 && le <= diffTarget <= be ==> chosen == if 2 * diffTarget <= le + be then le else be)
            && (diffTarget > 0 && be < diffTarget < le ==> chosen == if 2 * diffTarget < le + be then be else le)
            && (diffTarget > 0 && le <= diffTarget && be <= diffTarget ==> chosen >= le && chosen >= be)
            && (diffTarget > 0 && le >= diffTarget && be >= diffTarget ==> chosen <= le && chosen <= be)
  {
  }

  /** The target of a job comes from its own text, if that has at most eight bytes; from the difficulty, if it has no
      text that is hexadecimal. The job's own difficulty has precedence over the running one. */
  lemma TargetPrecedence(f: Floats, difficulty: Option<Json>, obj: seq<Field>, bytes: seq<byte>)
    requires Find(obj, "target") == Some(Str(HexText(bytes)))
    ensures 0 < |bytes| <= 8 ==> TargetLe(f, difficulty, obj) == LeValue(bytes)
    ensures 8 < |bytes| && TargetLe(f, difficulty, obj) != DifficultyTarget(f, difficulty, obj)
         ==> TargetLe(f, difficulty, obj) in {LePrefix(bytes), BePrefix(bytes)}
  {
    HexReads(bytes);
  }

  /** Every offset within four of 2^32 is accepted with a blob too short for it. */
  lemma WrappedOffset(f: Floats, difficulty: Option<Json>, job: StratumJob)
    requires job.nonceOffset >= TWO_TO_THE_32 - 4 && |job.blob| == 3 && job.targetLe > 0 && job.targetBe.None?
    ensures JobFromObject(f, difficulty, JobFields(job)) == Some(job) && !Usable(job)
  {
    JobFieldsAnnounce(job);
    JobReads(f, difficulty, JobFields(job), job);
  }

  function NotifyFields(items: seq<Json>): seq<Field>
    requires |items| >= 3
  {
    var fields := Emplace(Emplace([], "job_id", items[0]), "blob", items[1]);
    if items[2].Str? then Emplace(fields, "target", items[2])
    else if IsNumber(items[2]) then Emplace(fields, "difficulty", items[2])
    else fields
  }

  function JobFromNotify(f: Floats, difficulty: Option<Json>, params: Json): Option<StratumJob> {
    match params
    case Obj(fields) => JobFromObject(f, difficulty, fields)
    case Arr(items) =>
      if |items| < 3 || !items[0].Str? || !items[1].Str? then None
      else JobFromObject(f, difficulty, NotifyFields(items))
    case _ => None
  }

  /** What the optional parameters of `mining.job` have said so far. */
  datatype Options = Options(clean: Option<bool>, offset: Option<u64>, target: Option<Field>)

  function LooksLikeTarget(v: Json): bool {
    v.Str? && ParsedHex(v.s).Some? && 0 < |ParsedHex(v.s).value| <= 32
  }

  predicate IsBool(v: Json) {
    v.Bool?
  }

  predicate IsSmall(v: Json) {
    NumberToU64(v).Some? && NumberToU64(v).value <= 512
  }

  predicate IsTarget(v: Json) {
    LooksLikeTarget(v) || Positive(v)
  }

  function TargetField(v: Json): Field {
    Field(if v.Str? then "target" else "difficulty", v)
  }

  /** Where the first value that fits stands, or the length. */
  function First(items: seq<Json>, fits: Json -> bool): (i: nat)
    ensures i <= |items| && (i < |items| ==> fits(items[i])) && forall j :: 0 <= j < i ==> !fits(items[j])
  {
    if items == [] || fits(items[0]) then 0 else 1 + First(items[1..], fits)
  }

  function Without(items: seq<Json>, i: nat): seq<Json> {
    if i < |items| then items[..i] + items[i + 1..] else items
  }

  function ChosenClean(items: seq<Json>): Option<bool> {
    var i := First(items, IsBool);
    if i < |items| then Some(items[i].b) else None
  }

  function ChosenOffset(items: seq<Json>): Option<u64> {
    var i := First(items, IsSmall);
    if i < |items| then NumberToU64(items[i]) else None
  }

  function ChosenTarget(others: seq<Json>): Option<Field> {
    var i := First(others, IsTarget);
    if i < |others| then Some(TargetField(others[i])) else None
  }

  /** The first Boolean, the first number of at most 512, and of the other parameters the first that looks like a target
      or is a positive number. */
  function ChosenOptions(items: seq<Json>): Options {
    Options(ChosenClean(items), ChosenOffset(items), ChosenTarget(Without(items, First(items, IsSmall))))
  }

  /** One turn of the loop: a parameter fills the first place that is open and fits. */
  function TakeOption(o: Options, v: Json): Options {
    if o.clean.None? && v.Bool? then o.(clean := Some(v.b))
    else if o.offset.None? && IsSmall(v) then o.(offset := NumberToU64(v))
    else if o.target.None? && LooksLikeTarget(v) then o.(target := Some(Field("target", v)))
    else if o.target.None? && Positive(v) then o.(target := Some(Field("difficulty", v)))
    else o
  }

  lemma {:induction false} FirstOf(items: seq<Json>, fits: Json -> bool, i: nat)
    requires i <= |items| && (i < |items| ==> fits(items[i])) && forall j :: 0 <= j < i ==> !fits(items[j])
    ensures First(items, fits) == i
  {
  }

  lemma FirstSnoc(items: seq<Json>, v: Json, fits: Json -> bool)
    ensures First(items + [v], fits)
         == if First(items, fits) < |items| then First(items, fits) else if fits(v) then |items| else |items| + 1
    ensures First(items, fits) < |items| ==> (items + [v])[First(items, fits)] == items[First(items, fits)]
  {
    var i := if First(items, fits) < |items| then First(items, fits) else if fits(v) then |items| else |items| + 1;
    FirstOf(items + [v], fits, i);
  }

  lemma WithoutSnoc(items: seq<Json>, i: nat, v: Json)
    ensures i < |items| ==> Without(items + [v], i) == Without(items, i) + [v]
    ensures Without(items + [v], |items|) == items
  {
    if i < |items| {
      assert (items + [v])[i + 1..] == items[i + 1..] + [v];
    }
  }

  lemma CleanSnoc(items: seq<Json>, v: Json)
    ensures ChosenClean(items + [v])
         == if ChosenClean(items).None? && IsBool(v) then Some(v.b) else ChosenClean(items)
  {
    FirstSnoc(items, v, IsBool);
  }

  lemma OffsetSnoc(items: seq<Json>, v: Json)
    ensures ChosenOffset(items + [v])
         == if ChosenOffset(items).None? && IsSmall(v) then NumberToU64(v) else ChosenOffset(items)
  {
    FirstSnoc(items, v, IsSmall);
  }

  lemma TargetSnoc(others: seq<Json>, v: Json)
    ensures ChosenTarget(others + [v])
         == if ChosenTarget(others).None? && IsTarget(v) then Some(TargetField(v)) else ChosenTarget(others)
  {
    FirstSnoc(others, v, IsTarget);
  }

  lemma OthersSnoc(items: seq<Json>, v: Json)
    ensures Without(items + [v], First(items + [v], IsSmall))
         == if ChosenOffset(items).None? && IsSmall(v) then Without(items, First(items, IsSmall))
            else Without(items, First(items, IsSmall)) + [v]
  {
    FirstSnoc(items, v, IsSmall);
    WithoutSnoc(items, First(items, IsSmall), v);
  }

  /** The places a parameter fills. */
  lemma TakeOptionIs(o: Options, v: Json)
    ensures TakeOption(o, v).clean == if o.clean.None? && IsBool(v) then Some(v.b) else o.clean
    ensures TakeOption(o, v).offset == if o.offset.None? && IsSmall(v) then NumberToU64(v) else o.offset
    ensures TakeOption(o, v).target
         == if o.target.None? && IsTarget(v) && !(o.offset.None? && IsSmall(v)) then Some(TargetField(v)) else o.target
  {
  }

  lemma TargetTaken(items: seq<Json>, v: Json)
    ensures var o := ChosenOptions(items);
            ChosenOptions(items + [v]).target
            == if o.target.None? && IsTarget(v) && !(o.offset.None? && IsSmall(v)) then Some(TargetField(v))
               else o.target
  {
    OthersSnoc(items, v);
    TargetSnoc(Without(items, First(items, IsSmall)), v);
  }

  /** The loop chooses those parameters. */
  lemma TakeChosen(items: seq<Json>, v: Json)
    ensures TakeOption(ChosenOptions(items), v) == ChosenOptions(items + [v])
  {
    TakeOptionIs(ChosenOptions(items), v);
    CleanSnoc(items, v);
    OffsetSnoc(items, v);
    TargetTaken(items, v);
  }

  /** An optional field. */
  function Placed(fields: seq<Field>, key: string, v: Option<Json>): seq<Field> {
    if v.Some? then Emplace(fields, key, v.value) else fields
  }

  function OffsetValue(o: Options): Option<Json> {
    if o.offset.Some? then Some(Uint64(o.offset.value)) else None
  }

  function CleanValue(o: Options): Option<Json> {
    if o.clean.Some? then Some(Bool(o.clean.value)) else None
  }

  /** The value under one of the two keys of a target. */
  function TargetValue(o: Options, key: string): Option<Json> {
    if o.target.Some? && o.target.value.key == key then Some(o.target.value.value) else None
  }

  function NamedFields(items: seq<Json>): seq<Field>
    requires |items| >= 2
  {
    Placed(Placed([], "job_id", Some(items[0])), "blob", Some(items[1]))
  }

  function OptionFields(fields: seq<Field>, o: Options): seq<Field> {
    var withOffset := Placed(fields, "nonce_offset", OffsetValue(o));
    var withTarget := Placed(withOffset, "target", TargetValue(o, "target"));
    var withDifficulty := Placed(withTarget, "difficulty", TargetValue(o, "difficulty"));
    Placed(withDifficulty, "clean_jobs", CleanValue(o))
  }

  function MiningFields(items: seq<Json>): seq<Field>
    requires |items| >= 2
  {
    OptionFields(NamedFields(items), ChosenOptions(items[2..]))
  }

  lemma PlacedFinds(fields: seq<Field>, key: string, v: Option<Json>)
    requires Sorted(fields) && Find(fields, key).None?
    ensures Sorted(Placed(fields, key, v))
    ensures forall k :: Find(Placed(fields, key, v), k) == if k == key then v else Find(fields, k)
  {
    if v.Some? {
      EmplaceSorted(fields, key, v.value);
      forall k
        ensures Find(Placed(fields, key, v), k) == if k == key then v else Find(fields, k)
      {
        FindEmplaced(fields, key, v.value, k);
      }
    }
  }

  /** Four optional fields with different keys. */
  lemma FourPlaced(fields: seq<Field>, a: string, x: Option<Json>, b: string, y: Option<Json>,
                   c: string, z: Option<Json>, d: string, u: Option<Json>, key: string)
    requires Sorted(fields) && Find(fields, a) == Find(fields, b) == Find(fields, c) == Find(fields, d) == None
    requires a != b && a != c && a != d && b != c && b != d && c != d
    ensures Find(Placed(Placed(Placed(Placed(fields, a, x), b, y), c, z), d, u), key)
         == if key == a then x else if key == b then y else if key == c then z else if key == d then u
            else Find(fields, key)
  {
    PlacedFinds(fields, a, x);
    PlacedFinds(Placed(fields, a, x), b, y);
    PlacedFinds(Placed(Placed(fields, a, x), b, y), c, z);
    PlacedFinds(Placed(Placed(Placed(fields, a, x), b, y), c, z), d, u);
  }

  lemma NamedFound(items: seq<Json>, key: string)
    requires |items| >= 2
    ensures Sorted(NamedFields(items))
    ensures Find(NamedFields(items), key)
         == if key == "job_id" then Some(items[0]) else if key == "blob" then Some(items[1]) else None
  {
    KeysDiffer();
    PlacedFinds([], "job_id", Some(items[0]));
    PlacedFinds(Placed([], "job_id", Some(items[0])), "blob", Some(items[1]));
  }

  /** Which parameter ends in which place. */
  lemma MiningFieldsFound(items: seq<Json>, key: string)
    requires |items| >= 2
    ensures var o := ChosenOptions(items[2..]);
            Find(MiningFields(items), key)
            == if key == "nonce_offset" then OffsetValue(o)
               else if key == "target" || key == "difficulty" then TargetValue(o, key)
               else if key == "clean_jobs" then CleanValue(o)
               else if key == "job_id" then Some(items[0])
               else if key == "blob" then Some(items[1])
               else None
  {
    KeysDiffer();
    var o := ChosenOptions(items[2..]);
    NamedFound(items, "nonce_offset");
    NamedFound(items, "target");
    NamedFound(items, "difficulty");
    NamedFound(items, "clean_jobs");
    NamedFound(items, key);
    FourPlaced(NamedFields(items), "nonce_offset", OffsetValue(o), "target", TargetValue(o, "target"),
      "difficulty", TargetValue(o, "difficulty"), "clean_jobs", CleanValue(o), key);
  }

  function JobFromMining(f: Floats, difficulty: Option<Json>, params: Json): Option<StratumJob> {
    match params
    case Obj(fields) => JobFromObject(f, difficulty, fields)
    case Arr(items) =>
      if |items| < 2 || !items[0].Str? || !items[1].Str? then None
      else JobFromObject(f, difficulty, MiningFields(items))
    case _ => None
  }

  lemma NothingChosen()
    ensures ChosenOptions([]) == Options(None, None, None)
  {
  }

  lemma Appended(items: seq<Json>, i: nat)
    requires 2 <= i < |items|
    ensures items[2..i + 1] == items[2..i] + [items[i]]
  {
  }

  lemma OneMore(items: seq<Json>, i: nat)
    requires 2 <= i < |items|
    ensures TakeOption(ChosenOptions(items[2..i]), items[i]) == ChosenOptions(items[2..i + 1])
  {
    Appended(items, i);
    TakeChosen(items[2..i], items[i]);
  }

  /** The loop over the optional parameters of `mining.job`. */
  method ReadOptions(items: seq<Json>) returns (options: Options)
    requires |items| >= 2
    ensures options == ChosenOptions(items[2..])
  {
    options := Options(None, None, None);
    NothingChosen();
    for i := 2 to |items|
      invariant options == ChosenOptions(items[2..i])
    {
      OneMore(items, i);
      options := TakeOption(options, items[i]);
    }
    assert items[2..|items|] == items[2..];
  }

  method ReadMiningParams(f: Floats, difficulty: Option<Json>, params: Json) returns (job: Option<StratumJob>)
    ensures job == JobFromMining(f, difficulty, params)
  {
    if params.Obj? {
      return JobFromObject(f, difficulty, params.fields);
    }
    if !params.Arr? {
      return None;
    }
    var items := params.items;
    if |items| < 2 || !items[0].Str? || !items[1].Str? {
      return None;
    }
    var options := ReadOptions(items);
    job := JobFromObject(f, difficulty, OptionFields(NamedFields(items), options));
  }

  /** The method of a message that has one. */
  function MethodOf(msg: Json): Option<string> {
    if msg.Obj? then FindString(msg.fields, "method") else None
  }

  function IdOf(msg: Json): Option<string> {
    if msg.Obj? && Find(msg.fields, "id").Some? then RpcId(Find(msg.fields, "id").value) else None
  }

  function JobInResult(f: Floats, difficulty: Option<Json>, fields: seq<Field>): Option<StratumJob> {
    var result :- Find(fields, "result");
    if !result.Obj? then None
    else
      var job :- Find(result.fields, "job");
      if job.Obj? then JobFromObject(f, difficulty, job.fields) else None
  }

  function JobFromMessage(f: Floats, difficulty: Option<Json>, name: string, fields: seq<Field>):
      Option<StratumJob>
  {
    var params := Find(fields, "params");
    if name == "job" && params.Some? && params.value.Obj? then JobFromObject(f, difficulty, params.value.fields)
    else if name == "mining.job" && params.Some? then JobFromMining(f, difficulty, params.value)
    else if name == "mining.notify" && params.Some? then JobFromNotify(f, difficulty, params.value)
    else JobInResult(f, difficulty, fields)
  }

  // ---- Difficulty ----

  predicate SetsDifficulty(name: string) {
    name == "mining.set_difficulty" || name == "set_difficulty"
  }

  /** The value that a `set_difficulty` message names, if any. */
  function NamedDifficulty(fields: seq<Field>): Option<Json> {
    var params :- Find(fields, "params");
    match params
    case Arr(items) => if items == [] then None else Some(items[0])
    case Obj(p) => Find(p, "difficulty")
    case _ => None
  }

  /** The difficulty after a message; an error if it names something that is not a number. */
  function DifficultyAfter(difficulty: Option<Json>, name: string, fields: seq<Field>): Result<Option<Json>, ()> {
    var named := if SetsDifficulty(name) then NamedDifficulty(fields) else None;
    if named.None? then Ok(difficulty)
    else if IsNumber(named.value) then Ok(named)
    else Err(())
  }
}
