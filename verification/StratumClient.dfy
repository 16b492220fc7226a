/** The receiving side of a stratum client: lines out of chunks, messages out of lines, jobs out of messages. */
module StratumClient {
  import opened Machine
  import opened Json
  import opened JsonText
  import opened Hex
  import opened StratumJobs
  import opened StratumParse

  // ---- What a stream of bytes means ----

  /** The jobs announced and the difficulty set so far. */
  datatype Progress = Progress(jobs: seq<StratumJob>, difficulty: Option<Json>)

  /** What one message does; a difficulty that is not a number makes the client throw before it does anything. */
  function Apply(f: Floats, p: Progress, msg: Json): Progress {
    if MethodOf(msg).None? then p
    else
      var name := MethodOf(msg).value;
      match DifficultyAfter(p.difficulty, name, msg.fields)
      case Err(_) => p
      case Ok(difficulty) =>
        var job := JobFromMessage(f, difficulty, name, msg.fields);
        Progress(p.jobs + (if job.Some? then [job.value] else []), difficulty)
  }

  function ApplyLine(f: Floats, p: Progress, line: string): Progress {
    if Trimmed(line) == "" then p
    else match ParseJson(Trimmed(line))
      case Err(_) => p
      case Ok(msg) => Apply(f, p, msg)
  }

  /** The number of characters before the first newline, if there is one. */
  function NewlineAt(text: string): (n: Option<nat>)
    ensures n.Some? ==> n.value < |text| && text[n.value] == '\n' && forall i :: 0 <= i < n.value ==> text[i] != '\n'
    ensures n.None? ==> forall i :: 0 <= i < |text| ==> text[i] != '\n'
  {
    if text == "" then None
    else if text[0] == '\n' then Some(0)
    else
      var n :- NewlineAt(text[1..]);
      Some(n + 1)
  }

  /** The complete lines of a text, without their newlines. */
  function Lines(text: string): seq<string> {
    match NewlineAt(text)
    case None => []
    case Some(n) => [text[..n]] + Lines(text[n + 1..])
  }

  function ApplyLines(f: Floats, p: Progress, lines: seq<string>): Progress {
    if lines == [] then p else ApplyLine(f, ApplyLines(f, p, lines[..|lines| - 1]), lines[|lines| - 1])
  }

  function Meaning(f: Floats, p: Progress, text: string): Progress {
    ApplyLines(f, p, Lines(text))
  }

  predicate Complete(text: string) {
    text == "" || text[|text| - 1] == '\n'
  }

  lemma NewlineOfConcat(head: string, tail: string)
    requires NewlineAt(head).Some?
    ensures NewlineAt(head + tail) == NewlineAt(head)
  {
    assert (head + tail)[NewlineAt(head).value] == '\n';
  }

  lemma CompleteHasNewline(head: string)
    requires Complete(head) && head != ""
    ensures NewlineAt(head).Some? && Complete(head[NewlineAt(head).value + 1..])
  {
    assert head[|head| - 1] == '\n';
  }

  lemma DropFirstLine(head: string, tail: string, n: nat)
    requires n < |head|
    ensures (head + tail)[..n] == head[..n] && (head + tail)[n + 1..] == head[n + 1..] + tail
  {
  }

  lemma {:induction false} LinesSplit(head: string, tail: string)
    requires Complete(head)
    ensures Lines(head + tail) == Lines(head) + Lines(tail)
    decreases |head|
  {
    if head == "" {
      assert head + tail == tail;
    } else {
      CompleteHasNewline(head);
      NewlineOfConcat(head, tail);
      var n := NewlineAt(head).value;
      DropFirstLine(head, tail, n);
      LinesSplit(head[n + 1..], tail);
      ConsConcat(head[..n], Lines(head[n + 1..]), Lines(tail));
    }
  }

  lemma ConsConcat<T>(x: T, a: seq<T>, b: seq<T>)
    ensures [x] + (a + b) == ([x] + a) + b
  {
  }

  lemma {:induction false} ApplyLinesSplit(f: Floats, p: Progress, a: seq<string>, b: seq<string>)
    ensures ApplyLines(f, p, a + b) == ApplyLines(f, ApplyLines(f, p, a), b)
  {
    if b == [] {
      assert a + b == a;
    } else {
      ApplyLinesSplit(f, p, a, b[..|b| - 1]);
      assert (a + b)[..|a + b| - 1] == a + b[..|b| - 1];
    }
  }

  /** A stream means what its complete part means, and then the rest. */
  lemma MeaningSplit(f: Floats, p: Progress, head: string, tail: string)
    requires Complete(head)
    ensures Meaning(f, p, head + tail) == Meaning(f, Meaning(f, p, head), tail)
  {
    LinesSplit(head, tail);
    ApplyLinesSplit(f, p, Lines(head), Lines(tail));
  }

  lemma MeaningOfLine(f: Floats, p: Progress, line: string)
    requires NewlineAt(line).None?
    ensures Complete(line + "\n") && Meaning(f, p, line + "\n") == ApplyLine(f, p, line)
  {
    AtTheEnd(line, line + "\n");
    LastLine(line + "\n", line);
    OneLine(f, p, line);
  }

  lemma AtTheEnd(line: string, text: string)
    requires NewlineAt(line).None? && |text| == |line| + 1 && text[|line|] == '\n'
    requires forall i :: 0 <= i < |line| ==> text[i] == line[i]
    ensures NewlineAt(text) == Some(|line|) && text[..|line|] == line
  {
  }

  lemma LastLine(text: string, line: string)
    requires |text| == |line| + 1 && text[..|line|] == line && NewlineAt(text) == Some(|line|)
    ensures Lines(text) == [line]
  {
    var rest := text[|line| + 1..];
    assert rest == "" && Lines(rest) == [];
    assert Lines(text) == [line] + Lines(rest);
  }

  lemma OneLine(f: Floats, p: Progress, line: string)
    ensures ApplyLines(f, p, [line]) == ApplyLine(f, p, line)
  {
    assert [line][..0] == [];
  }

  predicate StartsWith(a: seq<StratumJob>, b: seq<StratumJob>) {
    |b| <= |a| && a[..|b|] == b
  }

  /** Jobs are only ever added. */
  lemma {:induction false} JobsGrow(f: Floats, p: Progress, lines: seq<string>)
    ensures StartsWith(ApplyLines(f, p, lines).jobs, p.jobs)
  {
    if lines != [] {
      JobsGrow(f, p, lines[..|lines| - 1]);
    }
  }

  // ---- The client ----

  /** What the socket delivers when it is asked. */
  datatype Receive = Timeout | Chunk(bytes: string) | Closed

  /** All the bytes that will arrive. */
  function Delivered(incoming: seq<Receive>): string {
    if incoming == [] then ""
    else (match incoming[0] case Chunk(bytes) => bytes case _ => "") + Delivered(incoming[1..])
  }

  datatype Trouble = TimedOut | Disconnected | BadJson | SendFailed

  datatype Message = Message(content: Json, id: Option<string>, name: Option<string>)

  /** `Thrown` is an exception that leaves the client. */
  datatype Read<+T> = Got(value: T) | Problem(trouble: Trouble) | Thrown

  method ParseLine(line: string) returns (r: Result<Json, JsonError>)
    ensures r == ParseJson(line)
  {
    var parser := new Parser(line);
    r := parser.ReadDocument();
  }

  /** A client that has logged in. `incoming` is what the socket will deliver; once it is used up, nothing more
      arrives. The ghost fields are history: all that has been received, the complete lines of it that have been
      processed, and the jobs handed out. */
  class Client {
    const f: Floats
    var rx: string
    var queued: seq<StratumJob>
    var difficulty: Option<Json>
    var nextRequestId: u64
    var incoming: seq<Receive>
    ghost const start: Progress
    ghost var received: string
    ghost var processed: string
    ghost var handed: seq<StratumJob>

    ghost predicate Framed()
      reads this
    {
      received == processed + rx && Complete(processed)
    }

    /** The whole stream of bytes, received or not. */
    ghost function Stream(): string
      reads this
    {
      received + Delivered(incoming)
    }

    /** Something has been consumed: what will arrive or else what has arrived is shorter than before. */
    ghost predicate Shorter(before: seq<Receive>, text: string)
      reads this
    {
      |incoming| < |before| || (|incoming| == |before| && |rx| < |text|)
    }

    /** What has been handed out and queued is what the processed lines mean. */
    ghost predicate Valid()
      reads this
    {
      Framed() && Meaning(f, start, processed) == Progress(handed + queued, difficulty)
    }

    constructor (f: Floats, rx: string, queued: seq<StratumJob>, difficulty: Option<Json>, nextRequestId: u64,
        incoming: seq<Receive>)
      ensures Valid() && handed == [] && received == rx && start == Progress(queued, difficulty)
      ensures this.f == f && this.incoming == incoming
    {
      this.f, this.rx, this.queued, this.difficulty := f, rx, queued, difficulty;
      this.nextRequestId, this.incoming := nextRequestId, incoming;
      start, received, processed, handed := Progress(queued, difficulty), rx, "", [];
    }

    /** Waits for the socket and appends what arrives. */
    method Receive() returns (trouble: Option<Trouble>)
      requires Framed()
      modifies this`rx, this`incoming, this`received
      ensures Framed() && Stream() == old(Stream())
      ensures incoming == if old(incoming) == [] then [] else old(incoming)[1..]
      ensures match (if old(incoming) == [] then Timeout else old(incoming)[0])
              case Timeout => trouble == Some(TimedOut) && rx == old(rx)
              case Closed => trouble == Some(Disconnected) && rx == old(rx)
              case Chunk(bytes) => trouble == None && rx == old(rx) + bytes && old(incoming) != []
    {
      if incoming == [] {
        return Some(TimedOut);
      }
      var next := incoming[0];
      incoming := incoming[1..];
      assert "" + Delivered(incoming) == Delivered(incoming);
      match next
      case Timeout => return Some(TimedOut);
      case Closed => return Some(Disconnected);
      case Chunk(bytes) =>
        Assoc(processed, rx, bytes);
        Assoc(received, bytes, Delivered(incoming));
        rx := rx + bytes;
        received := received + bytes;
        return None;
    }

    /** Takes the first line out of the buffer. */
    method TakeLine(n: nat) returns (line: string)
      requires Framed() && NewlineAt(rx) == Some(n)
      modifies this`rx, this`processed
      ensures Framed() && |rx| < |old(rx)|
      ensures Meaning(f, start, processed) == ApplyLine(f, Meaning(f, start, old(processed)), line)
    {
      line := rx[..n];
      ghost var whole := line + "\n";
      NoNewlineBefore(rx, n);
      MeaningOfLine(f, Meaning(f, start, processed), line);
      MeaningSplit(f, start, processed, whole);
      TakenApart(processed, rx, n, whole);
      processed := processed + whole;
      rx := rx[n + 1..];
    }

    /** The next message that parses. Its effect on the jobs and the difficulty is yet to be applied. */
    method ReadJsonLine() returns (r: Read<Json>)
      requires Valid()
      modifies this`rx, this`incoming, this`received, this`processed
      ensures Framed() && Stream() == old(Stream()) && !r.Thrown?
      ensures r.Got? ==> Meaning(f, start, processed) == Apply(f, Progress(handed + queued, difficulty), r.value)
      ensures r.Problem? ==> Valid()
      ensures r.Problem? && !r.trouble.BadJson? ==> NewlineAt(rx).None?
      ensures r.Got? || r == Problem(BadJson) ==> Shorter(old(incoming), old(rx))
      ensures r != Problem(SendFailed)
    {
      while true
        invariant Valid() && Stream() == old(Stream())
        invariant |incoming| < |old(incoming)| || (|incoming| == |old(incoming)| && |rx| <= |old(rx)|)
        decreases |incoming|, |rx|
      {
        var nl := NewlineAt(rx);
        if nl.Some? {
          var line := TakeLine(nl.value);
          line := Trim(line);
          if line == "" {
            continue;
          }
          var parsed := ParseLine(line);
          match parsed
          case Ok(msg) => return Got(msg);
          case Err(_) => return Problem(BadJson);
        }
        var trouble := Receive();
        if trouble.Some? {
          return Problem(trouble.value);
        }
      }
    }

    /** Reads a message and applies it. */
    method ReadMessage() returns (r: Read<Message>)
      requires Valid()
      modifies this`rx, this`incoming, this`received, this`processed, this`queued, this`difficulty
      ensures Valid() && Stream() == old(Stream())
      ensures r.Got? ==> r.value == Message(r.value.content, IdOf(r.value.content), MethodOf(r.value.content))
      ensures r.Problem? ==> queued == old(queued) && (r.trouble != BadJson ==> NewlineAt(rx).None?)
      ensures r.Got? || r.Thrown? || r == Problem(BadJson) ==> Shorter(old(incoming), old(rx))
      ensures r != Problem(SendFailed) && (r.Thrown? ==> queued == old(queued) && difficulty == old(difficulty))
    {
      var line := ReadJsonLine();
      match line
      case Thrown => return Thrown;
      case Problem(trouble) => return Problem(trouble);
      case Got(msg) =>
        var name := MethodOf(msg);
        if name.Some? {
          var after := DifficultyAfter(difficulty, name.value, msg.fields);
          if after.Err? {
            return Thrown;
          }
          difficulty := after.value;
          var job := JobFromMessage(f, difficulty, name.value, msg.fields);
          if job.Some? {
            QueueOne(handed, queued, job.value);
            queued := queued + [job.value];
          }
        }
        r := Got(Message(msg, IdOf(msg), name));
    }

    /** Hands out the oldest job in the queue. */
    method HandOut() returns (job: StratumJob)
      requires Valid() && queued != []
      modifies this`queued, this`handed
      ensures Valid() && handed == old(handed) + [job] && job == old(queued)[0]
    {
      job := queued[0];
      MoveOne(handed, queued);
      queued := queued[1..];
      handed := handed + [job];
    }

    /** The next job; a timeout only when all the jobs of the received lines have been handed out. */
    method PollJob() returns (r: Read<StratumJob>)
      requires Valid()
      modifies this
      ensures Valid() && Stream() == old(Stream()) && nextRequestId == old(nextRequestId)
      ensures handed == if r.Got? then old(handed) + [r.value] else old(handed)
      ensures old(queued) != [] ==> r == Got(old(queued)[0])
      ensures r.Thrown? || r == Problem(BadJson) ==> Shorter(old(incoming), old(rx))
      ensures r != Problem(SendFailed)
      ensures r == Problem(TimedOut) || r == Problem(Disconnected) ==>
                handed == Meaning(f, start, received).jobs && difficulty == Meaning(f, start, received).difficulty
    {
      if queued != [] {
        var job := HandOut();
        return Got(job);
      }
      while true
        invariant Valid() && Stream() == old(Stream()) && nextRequestId == old(nextRequestId)
        invariant handed == old(handed) && queued == []
        invariant |incoming| < |old(incoming)| || (|incoming| == |old(incoming)| && |rx| <= |old(rx)|)
        decreases |incoming|, |rx|
      {
        var msg := ReadMessage();
        match msg
        case Thrown => return Thrown;
        case Problem(trouble) =>
          if trouble != BadJson {
            NothingLeft(f, start, processed, rx);
            assert handed + queued == handed;
          }
          return Problem(trouble);
        case Got(_) =>
          if queued != [] {
            var job := HandOut();
            return Got(job);
          }
      }
    }

    /** Sends a request and waits for the response that carries its id; jobs that arrive meanwhile are queued. */
    method RequestResponse(sent: bool) returns (r: Read<Json>)
      requires Valid()
      modifies this
      ensures Valid() && Stream() == old(Stream()) && handed == old(handed)
      ensures nextRequestId == (old(nextRequestId) + 1) % TWO_TO_THE_64
      ensures r.Got? ==> IdOf(r.value) == Some(NatText(old(nextRequestId)))
      ensures r == Problem(SendFailed) <==> !sent
      ensures r.Got? || r.Thrown? || r == Problem(BadJson) ==> Shorter(old(incoming), old(rx))
    {
      var requestId := NatText(nextRequestId);
      nextRequestId := (nextRequestId + 1) % TWO_TO_THE_64;
      if !sent {
        return Problem(SendFailed);
      }
      while true
        invariant Valid() && Stream() == old(Stream()) && handed == old(handed)
        invariant nextRequestId == (old(nextRequestId) + 1) % TWO_TO_THE_64
        invariant |incoming| < |old(incoming)| || (|incoming| == |old(incoming)| && |rx| <= |old(rx)|)
        decreases |incoming|, |rx|
      {
        var msg := ReadMessage();
        match msg
        case Thrown => return Thrown;
        case Problem(trouble) => return Problem(trouble);
        case Got(message) =>
          if message.id == Some(requestId) {
            return Got(message.content);
          }
      }
    }
  }

  // ---- Lemmas of the client ----

  lemma NoNewlineBefore(text: string, n: nat)
    requires NewlineAt(text) == Some(n)
    ensures NewlineAt(text[..n]).None?
  {
  }

  lemma TakenApart(processed: string, rx: string, n: nat, whole: string)
    requires n < |rx| && rx[n] == '\n' && whole == rx[..n] + "\n"
    ensures processed + rx == (processed + whole) + rx[n + 1..]
    ensures Complete(processed + whole)
  {
    assert rx == whole + rx[n + 1..];
    Assoc(processed, whole, rx[n + 1..]);
  }

  lemma QueueOne(handed: seq<StratumJob>, queued: seq<StratumJob>, job: StratumJob)
    ensures (handed + queued) + [job] == handed + (queued + [job])
  {
  }

  lemma MoveOne(handed: seq<StratumJob>, queued: seq<StratumJob>)
    requires queued != []
    ensures handed + queued == (handed + [queued[0]]) + queued[1..]
  {
  }

  lemma NothingLeft(f: Floats, start: Progress, processed: string, rx: string)
    requires Complete(processed) && NewlineAt(rx).None?
    ensures Meaning(f, start, processed + rx) == Meaning(f, start, processed)
  {
    MeaningSplit(f, start, processed, rx);
    assert Lines(rx) == [];
  }

  // ---- Chunking does not matter ----

  /** At any time, the jobs handed out begin the list of jobs that the whole stream announces. */
  lemma InOrder(client: Client)
    requires client.Valid()
    ensures StartsWith(Meaning(client.f, client.start, client.Stream()).jobs, client.handed)
  {
    var p := Meaning(client.f, client.start, client.processed);
    var rest := client.rx + Delivered(client.incoming);
    Assoc(client.processed, client.rx, Delivered(client.incoming));
    MeaningSplit(client.f, client.start, client.processed, rest);
    JobsGrow(client.f, p, Lines(rest));
    Prefixes(Meaning(client.f, client.start, client.Stream()).jobs, client.handed, client.queued);
  }

  lemma Prefixes(all: seq<StratumJob>, handed: seq<StratumJob>, queued: seq<StratumJob>)
    requires StartsWith(all, handed + queued)
    ensures StartsWith(all, handed)
  {
    assert all[..|handed|] == (handed + queued)[..|handed|] == handed;
  }

  /** Two clients of the same stream, however it is split, never disagree: the jobs of one begin those of the other. */
  lemma ChunkingIndependent(a: Client, b: Client)
    requires a.Valid() && b.Valid() && a.f == b.f && a.start == b.start && a.Stream() == b.Stream()
    ensures StartsWith(a.handed, b.handed) || StartsWith(b.handed, a.handed)
  {
    InOrder(a);
    InOrder(b);
    var all := Meaning(a.f, a.start, a.Stream()).jobs;
    if |b.handed| <= |a.handed| {
      assert a.handed[..|b.handed|] == all[..|b.handed|];
    } else {
      assert b.handed[..|a.handed|] == all[..|a.handed|];
    }
  }

  // ---- Whole sessions ----

  datatype Op = Poll | Request(sent: bool)

  /** Any sequence of polls and requests: the jobs polled are the first ones that the stream announces, in order,
      without loss or repetition, and after a poll that times out they are all the jobs of the bytes received. */
  method Session(client: Client, ops: seq<Op>) returns (jobs: seq<StratumJob>, drained: bool)
    requires client.Valid() && client.handed == []
    modifies client
    ensures client.Valid() && jobs == client.handed && client.Stream() == old(client.Stream())
    ensures StartsWith(Meaning(client.f, client.start, client.Stream()).jobs, jobs)
    ensures drained ==> jobs == Meaning(client.f, client.start, client.received).jobs
  {
    jobs, drained := [], false;
    for i := 0 to |ops|
      invariant client.Valid() && jobs == client.handed && client.Stream() == old(client.Stream())
      invariant drained ==> jobs == Meaning(client.f, client.start, client.received).jobs
    {
      drained := false;
      match ops[i]
      case Poll =>
        var r := client.PollJob();
        if r.Thrown? {
          break;
        }
        if r.Got? {
          jobs := jobs + [r.value];
        } else {
          drained := r.trouble == TimedOut;
        }
      case Request(sent) =>
        var r := client.RequestResponse(sent);
    }
    InOrder(client);
  }
}
