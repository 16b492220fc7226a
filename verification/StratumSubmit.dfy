/** One submission of a share: the requests that are tried in turn, and when trying ends. */
module StratumSubmit {
  import opened Machine
  import opened Json
  import opened StratumShares

  /** How the pool was logged in to. */
  datatype Mode = LoginSubmit | MiningSubmit | MiningAuthSubmitShort | LoginCapsSubmit | NoMode

  datatype Request = Request(name: string, params: Json, jsonrpc: bool)

  /** What is submitted; `id` is the session or, without one, the user. */
  datatype Content = Content(id: string, user: string, jobId: string, nonceHex: string, resultHex: string)

  function ShareFields(c: Content): seq<Field> {
    [Field("job_id", Str(c.jobId)), Field("nonce", Str(c.nonceHex)), Field("result", Str(c.resultHex))]
  }

  function WithId(c: Content): Json {
    Obj([Field("id", Str(c.id))] + ShareFields(c))
  }

  function WithWorker(c: Content): Json {
    Obj(ShareFields(c) + [Field("worker", Str(c.user))])
  }

  function Listed(name: string, c: Content): Json {
    Arr([Str(name), Str(c.jobId), Str(c.nonceHex), Str(c.resultHex)])
  }

  function Short(c: Content): Json {
    Arr([Str(c.user), Str(c.jobId), Str(c.nonceHex)])
  }

  /** The pool's several spellings, first as JSON-RPC 2.0 or first without. */
  function CapsRequests(c: Content, jsonrpc: bool): seq<Request> {
    [Request("Submit", WithId(c), jsonrpc), Request("Submit", Listed(c.id, c), jsonrpc),
     Request("submit", WithId(c), jsonrpc), Request("submit", Listed(c.id, c), jsonrpc),
     Request("mining.submit", WithWorker(c), jsonrpc), Request("mining.submit", Listed(c.id, c), jsonrpc)]
  }

  function Requests(mode: Mode, c: Content): seq<Request> {
    match mode
    case LoginSubmit => [Request("submit", WithId(c), true), Request("submit", WithId(c), false)]
    case MiningSubmit =>
      [Request("mining.submit", WithWorker(c), true), Request("mining.submit", Listed(c.id, c), true),
       Request("mining.submit", WithWorker(c), false), Request("mining.submit", Listed(c.id, c), false)]
    case MiningAuthSubmitShort =>
      [Request("mining.submit", Short(c), false), Request("mining.submit", Short(c), true),
       Request("mining.submit", Listed(c.user, c), false), Request("mining.submit", Listed(c.user, c), true)]
    case LoginCapsSubmit => CapsRequests(c, true) + CapsRequests(c, false)
    case NoMode => []
  }

  /** The job and the nonce that a request names, by key or by position, and the result, which a short one omits. */
  predicate Names(params: Json, c: Content) {
    match params
    case Obj(fields) =>
      && Find(fields, "job_id") == Some(Str(c.jobId)) && Find(fields, "nonce") == Some(Str(c.nonceHex))
      && Find(fields, "result") == Some(Str(c.resultHex))
    case Arr(items) =>
      && 3 <= |items| <= 4 && items[1] == Str(c.jobId) && items[2] == Str(c.nonceHex)
      && (|items| == 4 ==> items[3] == Str(c.resultHex))
    case _ => false
  }

  lemma FieldsFound(c: Content)
    ensures var fields := ShareFields(c);
            && Find(fields, "job_id") == Some(Str(c.jobId)) && Find(fields, "nonce") == Some(Str(c.nonceHex))
            && Find(fields, "result") == Some(Str(c.resultHex))
  {
    assert |"job_id"| == |"result"| == 6 && |"nonce"| == 5;
    var fields := ShareFields(c);
    assert Find(fields[1..], "nonce") == Some(Str(c.nonceHex));
    assert Find(fields[1..][1..], "result") == Some(Str(c.resultHex));
  }

  lemma FoundBefore(fields: seq<Field>, field: Field, key: string)
    requires Find(fields, key).Some?
    ensures Find(fields + [field], key) == Find(fields, key)
  {
    if fields[0].key != key {
      FoundBefore(fields[1..], field, key);
      assert (fields + [field])[1..] == fields[1..] + [field];
    }
  }

  lemma FoundAfter(fields: seq<Field>, field: Field, key: string)
    requires field.key != key
    ensures Find([field] + fields, key) == Find(fields, key)
  {
    assert ([field] + fields)[1..] == fields;
  }

  lemma ParamsName(c: Content, name: string)
    ensures Names(WithId(c), c) && Names(WithWorker(c), c) && Names(Listed(name, c), c) && Names(Short(c), c)
  {
    var fields := ShareFields(c);
    FieldsFound(c);
    assert |"id"| == 2 && |"job_id"| == |"result"| == 6 && |"nonce"| == 5;
    FoundAfter(fields, Field("id", Str(c.id)), "job_id");
    FoundAfter(fields, Field("id", Str(c.id)), "nonce");
    FoundAfter(fields, Field("id", Str(c.id)), "result");
    FoundBefore(fields, Field("worker", Str(c.user)), "job_id");
    FoundBefore(fields, Field("worker", Str(c.user)), "nonce");
    FoundBefore(fields, Field("worker", Str(c.user)), "result");
  }

  /** Every request of a submission names the same job, nonce and result. */
  lemma RequestsName(mode: Mode, c: Content, i: nat)
    requires i < |Requests(mode, c)|
    ensures Names(Requests(mode, c)[i].params, c)
  {
    ParamsName(c, c.id);
    ParamsName(c, c.user);
  }

  /** Every request is tried both as JSON-RPC 2.0 and without; in that order, unless the requests are short. */
  lemma RequestsInBothVersions(mode: Mode, c: Content, i: nat) returns (j: nat)
    requires i < |Requests(mode, c)|
    ensures j < |Requests(mode, c)|
    ensures var (one, other) := (Requests(mode, c)[i], Requests(mode, c)[j]);
            && other == one.(jsonrpc := !one.jsonrpc)
            && (one.jsonrpc <==> if mode.MiningAuthSubmitShort? then j < i else i < j)
  {
    match mode
    case LoginSubmit => j := 1 - i;
    case MiningSubmit => j := if i < 2 then i + 2 else i - 2;
    case MiningAuthSubmitShort => j := if i % 2 == 0 then i + 1 else i - 1;
    case LoginCapsSubmit => j := if i < 6 then i + 6 else i - 6;
  }

  /** No request is sent twice in one submission. */
  lemma RequestsDiffer(mode: Mode, c: Content, i: nat, j: nat)
    requires i < j < |Requests(mode, c)|
    ensures Requests(mode, c)[i] != Requests(mode, c)[j]
  {
    assert "Submit"[0] == 'S' && "submit"[0] == 's' && "mining.submit"[0] == 'm';
  }

  // ---- Trying them in turn ----

  /** What comes of one request: no response, one with an error, or one without. */
  datatype Reply = Lost | Refused(retryable: bool, mismatch: bool) | Answered(accepted: bool)

  /** `replies` are the pool's to each request, if it is sent. A request is followed by the next one exactly if the pool
      refuses it as unknown or, after a login by capability, if its response is lost; the last reply decides. */
  method Submit(mode: Mode, c: Content, replies: seq<Reply>) returns (sent: nat, answer: Answer)
    requires |replies| == |Requests(mode, c)|
    ensures if mode.NoMode? then sent == 0 else 0 < sent <= |replies|
    ensures forall j :: 0 <= j < sent - 1 ==>
              (replies[j].Refused? && replies[j].retryable) || (replies[j].Lost? && mode.LoginCapsSubmit?)
    ensures 0 < sent < |replies| ==>
              var reply := replies[sent - 1];
              reply.Answered? || (reply.Refused? && !reply.retryable) || (reply.Lost? && !mode.LoginCapsSubmit?)
    ensures answer == Accept <==> exists j :: 0 <= j < sent && replies[j] == Answered(true)
    ensures answer == NoAnswer <==> sent == 0 || replies[sent - 1].Lost?
    ensures answer == Reject(true) <==> sent > 0 && replies[sent - 1].Refused? && replies[sent - 1].mismatch
  {
    if mode.NoMode? {
      return 0, NoAnswer;
    }
    var patient := mode.LoginCapsSubmit?;
    var response: Option<Reply> := None;   // never a lost one
    sent := 0;
    while sent < |replies|
      invariant 0 <= sent <= |replies|
      invariant sent == |replies| ==> sent == 0
      invariant forall j :: 0 <= j < sent ==>
                  (replies[j].Refused? && replies[j].retryable) || (replies[j].Lost? && patient)
    {
      var reply := replies[sent];
      sent := sent + 1;
      if reply.Lost? {
        if patient && sent < |replies| {
          continue;
        }
        return sent, NoAnswer;
      }
      response := Some(reply);
      if reply.Answered? {
        break;
      }
      if sent < |replies| && reply.retryable {
        continue;
      }
      break;
    }
    if response.None? {
      return sent, NoAnswer;
    }
    match response.value
    case Refused(_, mismatch) => answer := Reject(mismatch);
    case Answered(accepted) => answer := if accepted then Accept else Reject(false);
  }
}
