/** How a pool announces a job or a difficulty, in every form of message, and what the client makes of it. */
module StratumAnnounce {
  import opened Machine
  import opened Bincode
  import opened Json
  import opened Hex
  import opened StratumJobs
  import opened StratumParse
  import opened StratumClient
  import opened JsonStable
  import opened JsonLines

  /** A job as it is announced by a list: only `mining.job` says more than the id, the blob and the target. */
  function Bare(job: StratumJob): StratumJob {
    job.(nonceOffset := 39, height := 0, cleanJobs := false)
  }

  // ---- mining.notify ----

  lemma NamedPair(jobId: Json, blob: Json, key: string)
    ensures var fields := Emplace(Emplace([], "job_id", jobId), "blob", blob);
            && Sorted(fields)
            && Find(fields, key) == if key == "job_id" then Some(jobId) else if key == "blob" then Some(blob) else None
  {
    NamedFound([jobId, blob], key);
  }

  /** A third field. */
  lemma NamedThree(jobId: Json, blob: Json, name: string, v: Json, key: string)
    requires name == "target" || name == "difficulty"
    ensures Find(Emplace(Emplace(Emplace([], "job_id", jobId), "blob", blob), name, v), key)
         == if key == name then Some(v) else if key == "job_id" then Some(jobId)
            else if key == "blob" then Some(blob) else None
  {
    KeysDiffer();
    NamedPair(jobId, blob, key);
    NamedPair(jobId, blob, name);
    FindEmplaced(Emplace(Emplace([], "job_id", jobId), "blob", blob), name, v, key);
  }

  lemma NotifyFinds(items: seq<Json>, key: string)
    requires |items| >= 3
    ensures Find(NotifyFields(items), key)
         == if key == "job_id" then Some(items[0])
            else if key == "blob" then Some(items[1])
            else if key == "target" && items[2].Str? then Some(items[2])
            else if key == "difficulty" && IsNumber(items[2]) then Some(items[2])
            else None
  {
    KeysDiffer();
    NamedPair(items[0], items[1], key);
    NamedThree(items[0], items[1], "target", items[2], key);
    NamedThree(items[0], items[1], "difficulty", items[2], key);
  }

  lemma OtherKeys()
    ensures "reserved_offset" != "job_id" && "reserved_offset" != "blob" && "reserved_offset" != "target"
    ensures "reserved_offset" != "difficulty" && "reserved_offset" != "nonce_offset"
    ensures "reserved_offset" != "clean_jobs" && "job_id" != "target" && "blob" != "job_id"
  {
    KeysDiffer();
    assert |"reserved_offset"| == 15 && |"job_id"| == 6 && |"blob"| == 4 && |"target"| == 6;
    assert |"difficulty"| == |"clean_jobs"| == 10 && |"nonce_offset"| == 12;
  }

  lemma NotifyAnnounces(job: StratumJob, items: seq<Json>)
    requires |items| >= 3
    requires items[0] == Str(job.jobId) && items[1] == Str(HexText(job.blob)) && items[2] == Str(TargetText(job))
    ensures Announces(NotifyFields(items), Bare(job))
  {
    KeysDiffer();
    OtherKeys();
    NotifyFinds(items, "job_id");
    NotifyFinds(items, "blob");
    NotifyFinds(items, "target");
    NotifyFinds(items, "nonce_offset");
    NotifyFinds(items, "reserved_offset");
    NotifyFinds(items, "height");
    NotifyFinds(items, "clean_jobs");
  }

  /** The target, by its text alone. */
  function TextTarget(f: Floats, difficulty: Option<Json>, job: StratumJob): u64 {
    TargetLe(f, difficulty, [Field("target", Str(TargetText(job)))])
  }

  lemma TextTargetIs(f: Floats, difficulty: Option<Json>, obj: seq<Field>, job: StratumJob)
    requires Find(obj, "target") == Some(Str(TargetText(job))) && Find(obj, "difficulty") == None
    ensures TargetLe(f, difficulty, obj) == TextTarget(f, difficulty, job)
  {
    KeysDiffer();
    OtherKeys();
    var alone := [Field("target", Str(TargetText(job)))];
    FindMissing(alone, "difficulty");
  }

  /** The job that is read when `job` is announced: itself, but the 64-bit target beside a 256-bit one is what
      `target` says. */
  function AsRead(job: StratumJob, target: u64): Option<StratumJob> {
    if !Readable(job) then None
    else if job.targetBe.None? then Some(job)
    else Some(job.(targetLe := target))
  }

  /** A list of the id, the blob and the target gives that job, with the offset 39, no height and no clean flag. */
  lemma NotifyReads(f: Floats, difficulty: Option<Json>, job: StratumJob, more: seq<Json>)
    ensures JobFromNotify(f, difficulty, Arr([Str(job.jobId), Str(HexText(job.blob)), Str(TargetText(job))] + more))
         == AsRead(Bare(job), TextTarget(f, difficulty, job))
  {
    var items := [Str(job.jobId), Str(HexText(job.blob)), Str(TargetText(job))] + more;
    NotifyAnnounces(job, items);
    JobReads(f, difficulty, NotifyFields(items), Bare(job));
    KeysDiffer();
    OtherKeys();
    NotifyFinds(items, "target");
    NotifyFinds(items, "difficulty");
    TextTargetIs(f, difficulty, NotifyFields(items), Bare(job));
  }

  /** The job of a blob and a difficulty. */
  function ByDifficulty(f: Floats, jobId: string, blob: seq<byte>, difficulty: Option<Json>): Option<StratumJob> {
    if blob == [] || !SeemsToFit(39, |blob|) || difficulty.None? || !Positive(difficulty.value) then None
    else Some(StratumJob(jobId, blob, 39, TargetOf(f, difficulty.value), None, 0, false))
  }

  /** A number in the third place acts as the difficulty; without a target or a number there, the running one does. */
  lemma NotifyDifficulty(f: Floats, difficulty: Option<Json>, jobId: string, blob: seq<byte>, v: Json, more: seq<Json>)
    requires !v.Str?
    ensures JobFromNotify(f, difficulty, Arr([Str(jobId), Str(HexText(blob)), v] + more))
         == ByDifficulty(f, jobId, blob, if IsNumber(v) then Some(v) else difficulty)
  {
    var items := [Str(jobId), Str(HexText(blob)), v] + more;
    var obj := NotifyFields(items);
    NotifyPlain(items);
    HexReads(blob);
    KeysDiffer();
    OtherKeys();
    NotifyFinds(items, "job_id");
    NotifyFinds(items, "blob");
    NotifyFinds(items, "target");
    NotifyFinds(items, "difficulty");
    JobOfParts(f, difficulty, obj, HexText(blob), jobId, blob);
  }

  lemma NotifyPlain(items: seq<Json>)
    requires |items| >= 3
    ensures var obj := NotifyFields(items);
            NonceOffset(obj) == 39 && HeightOf(obj) == 0 && !CleanJobs(obj)
  {
    KeysDiffer();
    OtherKeys();
    NotifyFinds(items, "nonce_offset");
    NotifyFinds(items, "reserved_offset");
    NotifyFinds(items, "height");
    NotifyFinds(items, "clean_jobs");
  }

  // ---- mining.job ----

  /** The three options, in any order. */
  predicate AnyOrder(options: seq<Json>, target: Json, offset: Json, clean: Json) {
    || options == [target, offset, clean] || options == [target, clean, offset] || options == [offset, target, clean]
    || options == [offset, clean, target] || options == [clean, target, offset] || options == [clean, offset, target]
  }

  lemma WithoutOne(x: Json, y: Json, z: Json)
    ensures Without([x, y, z], 0) == [y, z] && Without([x, y, z], 1) == [x, z] && Without([x, y, z], 2) == [x, y]
  {
  }

  lemma OffsetFirst(options: seq<Json>, target: Json, offset: Json, clean: Json)
    requires AnyOrder(options, target, offset, clean)
    requires target.Str? && LooksLikeTarget(target) && IsSmall(offset) && clean.Bool?
    ensures ChosenOffset(options) == NumberToU64(offset)
    ensures var others := Without(options, First(options, IsSmall));
            others == [target, clean] || others == [clean, target]
  {
    var i := if options[0] == offset then 0 else if options[1] == offset then 1 else 2;
    FirstOf(options, IsSmall, i);
    WithoutOne(options[0], options[1], options[2]);
    assert options == [options[0], options[1], options[2]];
  }

  lemma CleanFirst(options: seq<Json>, target: Json, offset: Json, clean: Json)
    requires AnyOrder(options, target, offset, clean) && target.Str? && IsSmall(offset) && clean.Bool?
    ensures ChosenClean(options) == Some(clean.b)
  {
    FirstOf(options, IsBool, if options[0] == clean then 0 else if options[1] == clean then 1 else 2);
  }

  lemma TargetLeft(others: seq<Json>, target: Json, clean: Json)
    requires others == [target, clean] || others == [clean, target]
    requires target.Str? && LooksLikeTarget(target) && clean.Bool?
    ensures ChosenTarget(others) == Some(Field("target", target))
  {
    FirstOf(others, IsTarget, if others[0] == target then 0 else 1);
  }

  lemma TargetLooks(job: StratumJob)
    ensures LooksLikeTarget(Str(TargetText(job)))
  {
    HexReads(LittleEndian(job.targetLe, 8));
    if job.targetBe.Some? {
      HexReads(job.targetBe.value);
    }
  }

  lemma MiningAnnounces(job: StratumJob, items: seq<Json>)
    requires |items| >= 2 && items[0] == Str(job.jobId) && items[1] == Str(HexText(job.blob)) && job.nonceOffset <= 512
    requires AnyOrder(items[2..], Str(TargetText(job)), Uint64(job.nonceOffset), Bool(job.cleanJobs))
    ensures Announces(MiningFields(items), job.(height := 0)) && Find(MiningFields(items), "difficulty") == None
    ensures Find(MiningFields(items), "target") == Some(Str(TargetText(job)))
  {
    KeysDiffer();
    OtherKeys();
    TargetLooks(job);
    OffsetFirst(items[2..], Str(TargetText(job)), Uint64(job.nonceOffset), Bool(job.cleanJobs));
    CleanFirst(items[2..], Str(TargetText(job)), Uint64(job.nonceOffset), Bool(job.cleanJobs));
    TargetLeft(Without(items[2..], First(items[2..], IsSmall)), Str(TargetText(job)), Bool(job.cleanJobs));
    MiningFieldsFound(items, "job_id");
    MiningFieldsFound(items, "blob");
    MiningFieldsFound(items, "target");
    MiningFieldsFound(items, "difficulty");
    MiningFieldsFound(items, "nonce_offset");
    MiningFieldsFound(items, "reserved_offset");
    MiningFieldsFound(items, "height");
    MiningFieldsFound(items, "clean_jobs");
  }

  /** A list of the id, the blob and, in any order, the target, an offset of at most 512 and the clean flag gives that
      job, without its height. */
  lemma MiningReads(f: Floats, difficulty: Option<Json>, job: StratumJob, options: seq<Json>)
    requires job.nonceOffset <= 512
    requires AnyOrder(options, Str(TargetText(job)), Uint64(job.nonceOffset), Bool(job.cleanJobs))
    ensures JobFromMining(f, difficulty, Arr([Str(job.jobId), Str(HexText(job.blob))] + options))
         == AsRead(job.(height := 0), TextTarget(f, difficulty, job))
  {
    var items := [Str(job.jobId), Str(HexText(job.blob))] + options;
    assert items[2..] == options;
    MiningAnnounces(job, items);
    JobReads(f, difficulty, MiningFields(items), job.(height := 0));
    TextTargetIs(f, difficulty, MiningFields(items), job);
  }

  // ---- Messages ----

  /** What the client knows after a message that announces `job`, if it can be read. */
  function Heard(p: Progress, job: Option<StratumJob>): Progress {
    p.(jobs := p.jobs + (if job.Some? then [job.value] else []))
  }

  /** The three methods that carry a job in their parameters. */
  predicate Announcing(name: string) {
    name == "job" || name == "mining.job" || name == "mining.notify"
  }

  lemma NamesDiffer(name: string)
    ensures Announcing(name) ==> !SetsDifficulty(name)
    ensures "mining.notify" != "mining.job" && "job" != "mining.job" && "job" != "mining.notify"
  {
    assert |"job"| == 3 && |"mining.job"| == 10 && |"mining.notify"| == 13;
    assert |"mining.set_difficulty"| == 21 && |"set_difficulty"| == 14;
  }

  lemma JobIsHeard(f: Floats, p: Progress, fields: seq<Field>, name: string)
    requires Find(fields, "method") == Some(Str(name)) && !SetsDifficulty(name)
    ensures Apply(f, p, Obj(fields)) == Heard(p, JobFromMessage(f, p.difficulty, name, fields))
  {
  }

  lemma ObjectIsRead(f: Floats, difficulty: Option<Json>, fields: seq<Field>, name: string, obj: seq<Field>)
    requires Announcing(name) && Find(fields, "params") == Some(Obj(obj))
    ensures JobFromMessage(f, difficulty, name, fields) == JobFromObject(f, difficulty, obj)
  {
    NamesDiffer(name);
  }

  /** Every method whose parameters are an object that announces a job queues it. */
  lemma ObjectIsHeard(f: Floats, p: Progress, fields: seq<Field>, name: string, obj: seq<Field>, job: StratumJob)
    requires Find(fields, "method") == Some(Str(name)) && Announcing(name)
    requires Find(fields, "params") == Some(Obj(obj)) && Announces(obj, job)
    ensures Apply(f, p, Obj(fields)) == Heard(p, AsRead(job, TargetLe(f, p.difficulty, obj)))
  {
    NamesDiffer(name);
    JobIsHeard(f, p, fields, name);
    ObjectIsRead(f, p.difficulty, fields, name, obj);
    JobReads(f, p.difficulty, obj, job);
  }

  /** So does every other method whose result carries one; without a method, nothing is queued. */
  lemma ResultIsHeard(f: Floats, p: Progress, fields: seq<Field>, result: seq<Field>, obj: seq<Field>, job: StratumJob)
    requires Find(fields, "result") == Some(Obj(result)) && Find(result, "job") == Some(Obj(obj)) && Announces(obj, job)
    requires MethodOf(Obj(fields)).Some? ==>
               var name := MethodOf(Obj(fields)).value;
               !SetsDifficulty(name) && (Announcing(name) ==> Find(fields, "params") == None)
    ensures Apply(f, p, Obj(fields))
         == if MethodOf(Obj(fields)) == None then p else Heard(p, AsRead(job, TargetLe(f, p.difficulty, obj)))
  {
    JobReads(f, p.difficulty, obj, job);
  }

  /** A list queues the job that it announces, by its target or by a difficulty. */
  lemma NotifyIsHeard(f: Floats, p: Progress, fields: seq<Field>, job: StratumJob, third: Json, more: seq<Json>)
    requires Find(fields, "method") == Some(Str("mining.notify"))
    requires Find(fields, "params") == Some(Arr([Str(job.jobId), Str(HexText(job.blob)), third] + more))
    ensures third == Str(TargetText(job)) ==>
              Apply(f, p, Obj(fields)) == Heard(p, AsRead(Bare(job), TextTarget(f, p.difficulty, job)))
    ensures !third.Str? ==>
              Apply(f, p, Obj(fields))
              == Heard(p, ByDifficulty(f, job.jobId, job.blob, if IsNumber(third) then Some(third) else p.difficulty))
  {
    NamesDiffer("mining.notify");
    if third == Str(TargetText(job)) {
      NotifyReads(f, p.difficulty, job, more);
    }
    if !third.Str? {
      NotifyDifficulty(f, p.difficulty, job.jobId, job.blob, third, more);
    }
  }

  lemma MiningIsHeard(f: Floats, p: Progress, fields: seq<Field>, job: StratumJob, options: seq<Json>)
    requires Find(fields, "method") == Some(Str("mining.job")) && job.nonceOffset <= 512
    requires Find(fields, "params") == Some(Arr([Str(job.jobId), Str(HexText(job.blob))] + options))
    requires AnyOrder(options, Str(TargetText(job)), Uint64(job.nonceOffset), Bool(job.cleanJobs))
    ensures Apply(f, p, Obj(fields)) == Heard(p, AsRead(job.(height := 0), TextTarget(f, p.difficulty, job)))
  {
    NamesDiffer("mining.job");
    MiningReads(f, p.difficulty, job, options);
  }

  /** The parameters name a difficulty, in a list or under its key. */
  predicate NamesDifficulty(params: Json, v: Json) {
    || (params.Arr? && params.items != [] && params.items[0] == v)
    || (params.Obj? && Find(params.fields, "difficulty") == Some(v))
  }

  /** A difficulty holds from its own message on, for a job in that message too; what is not a number makes the client
      throw before it has changed anything. */
  lemma DifficultyIsHeard(f: Floats, p: Progress, fields: seq<Field>, name: string, params: Json, v: Json)
    requires Find(fields, "method") == Some(Str(name)) && SetsDifficulty(name)
    requires Find(fields, "params") == Some(params) && NamesDifficulty(params, v)
    ensures !IsNumber(v) ==> Apply(f, p, Obj(fields)) == p
    ensures IsNumber(v) && Find(fields, "result") == None ==>
              Apply(f, p, Obj(fields)) == p.(difficulty := Some(v))
    ensures IsNumber(v) && Find(fields, "result").Some? ==>
              Apply(f, p, Obj(fields)) == Heard(p.(difficulty := Some(v)), JobInResult(f, Some(v), fields))
  {
    NamesDiffer("job");
    NamesDiffer("mining.job");
    NamesDiffer("mining.notify");
  }

  // ---- Lines ----

  lemma ObjectIsBraced(fields: seq<Field>, style: Style)
    ensures var text := ToJson(Obj(fields), style);
            |text| >= 2 && text[0] == '{' && text[|text| - 1] == '}'
  {
    assert ToJson(Obj(fields), style) == PrintObject(fields, style, 0);
    assert PrintObject(fields, style, 0) == "{" + BodyObject(fields, style, 0) + "}";
  }

  /** A message that survives printing and parsing, sent on a line of its own, does what the message says. */
  lemma LineIsHeard(f: Floats, p: Progress, fields: seq<Field>, style: Style)
    requires !style.pretty && WellFormed(Obj(fields)) && Stable(Obj(fields))
    ensures Meaning(f, p, ToJson(Obj(fields), style) + "\n") == Apply(f, p, Obj(fields))
  {
    var text := ToJson(Obj(fields), style);
    TextPrintable(Obj(fields), style, 0);
    MeaningOfLine(f, p, text);
    ObjectIsBraced(fields, style);
    TrimmedAlready(text);
    RoundTripExactly(Obj(fields), style);
  }
}
