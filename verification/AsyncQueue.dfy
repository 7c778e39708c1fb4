/** What a queued job asks of the compositor. */
module CompositorJobs {

  datatype Kind = Plain | Frame | GpuFrame | Resize | Query | Input | Readback
}

/** The asynchronous request queue of the compositor client: a ring of jobs of one or two requests,
    sent and answered piecemeal over one connection. */
module AsyncQueue {
  import opened Common
  import opened CompositorJobs

  const CAPACITY := 32
  const MAX_PAYLOAD := 8192
  const MAX_SECOND_PAYLOAD := 512
  const MAX_REPLY := 1024
  const COMPLETED_PER_PUMP := 4

  type Bytes = seq<bv8>

  datatype Job = Job(
    code: nat, payload: Bytes, secondCode: nat, secondPayload: Bytes,
    replyCapacity: nat, kind: Kind, handle: nat, cookie: nat)

  datatype Header = Header(version: nat, code: nat, size: nat, id: nat)

  datatype Stage = Idle | SendHeader | SendPayload | ReceiveHeader | ReceivePayload

  /** Statuses a completion can carry. */
  datatype Status =
    | Ok | InvalidArgument | AccessDenied | IoError | WouldBlock | VersionMismatch | NotSupported | Corrupt

  function StatusKnown(code: int): bool { code in {0, -1, -4, -5, -11, -13, -22, -71, -95} }

  function PublicStatus(code: int): Status {
    if code == 0 then Ok
    else if code == -1 || code == -22 then InvalidArgument
    else if code == -4 || code == -13 then AccessDenied
    else if code == -5 then IoError
    else if code == -11 then WouldBlock
    else if code == -71 then VersionMismatch
    else if code == -95 then NotSupported
    else Corrupt
  }

  predicate HasSecond(j: Job) { j.secondCode != 0 }

  function CodeOf(j: Job, operation: nat): nat {
    if operation == 0 || !HasSecond(j) then j.code else j.secondCode
  }

  function PayloadOf(j: Job, operation: nat): Bytes {
    if operation == 0 || !HasSecond(j) then j.payload else j.secondPayload
  }

  // What one connection has carried.

  datatype Request = Request(job: nat, operation: nat, header: Header, payload: Bytes)

  datatype Done = Done(job: Job, status: Status)

  /** All jobs ever accepted and finished, and the conversation on the current connection: the
      requests begun on it, the answers so far, the bytes sent. `base` counts the jobs finished
      before it was opened. */
  datatype Log = Log(
    accepted: seq<Job>, finished: seq<Done>, base: nat, wire: seq<Request>, answers: seq<Status>, sent: Bytes)

  type Encoder = Header -> Bytes

  function WireBytes(encode: Encoder, r: Request): Bytes { encode(r.header) + r.payload }

  function Flat(encode: Encoder, wire: seq<Request>): Bytes {
    if wire == [] then [] else Flat(encode, wire[..|wire| - 1]) + WireBytes(encode, wire[|wire| - 1])
  }

  /** The request is the one its job asks for. */
  predicate Faithful(r: Request, accepted: seq<Job>) {
    && r.job < |accepted| && r.operation <= 1
    && (r.operation == 1 ==> HasSecond(accepted[r.job]))
    && r.payload == PayloadOf(accepted[r.job], r.operation)
    && r.header.code == CodeOf(accepted[r.job], r.operation) && r.header.size == |r.payload|
  }

  /** What follows a request that got this answer: the job's second request exactly when there is
      one and the first was answered Ok, otherwise the next job. */
  function After(r: Request, answer: Status, accepted: seq<Job>): (nat, nat)
    requires r.job < |accepted|
  {
    if r.operation == 0 && HasSecond(accepted[r.job]) && answer == Ok then (r.job, 1) else (r.job + 1, 0)
  }

  ghost predicate Conversation(g: Log) {
    && |g.answers| <= |g.wire| <= |g.answers| + 1
    && (forall k :: 0 <= k < |g.wire| ==> Faithful(g.wire[k], g.accepted))
    && (g.wire != [] ==> (g.wire[0].job, g.wire[0].operation) == (g.base, 0))
    && (forall k :: 0 <= k < |g.wire| - 1 ==>
        (g.wire[k + 1].job, g.wire[k + 1].operation) == After(g.wire[k], g.answers[k], g.accepted))
  }

  /** The request in progress, or the one to begin next. */
  function Due(g: Log): (nat, nat)
    requires forall k :: 0 <= k < |g.wire| ==> g.wire[k].job < |g.accepted|
  {
    if g.wire == [] then (g.base, 0)
    else
      var r := g.wire[|g.wire| - 1];
      if |g.answers| < |g.wire| || g.answers == [] then (r.job, r.operation)
      else After(r, g.answers[|g.answers| - 1], g.accepted)
  }

  /** Jobs finish in the order they were accepted, each once. */
  ghost predicate InOrder(g: Log) {
    && |g.finished| <= |g.accepted|
    && forall i :: 0 <= i < |g.finished| ==> g.finished[i].job == g.accepted[i]
  }

  /** A second request was preceded at once by the first request of the same job, answered Ok. */
  lemma SecondFollowsOk(g: Log, k: nat)
    requires Conversation(g) && k < |g.wire| && g.wire[k].operation == 1
    ensures k > 0 && g.answers[k - 1] == Ok
    ensures g.wire[k - 1].job == g.wire[k].job && g.wire[k - 1].operation == 0
  {
    assert k == 0 || Faithful(g.wire[k - 1], g.accepted);
    assert k == 0 || (g.wire[k - 1 + 1].job, g.wire[k - 1 + 1].operation) ==
      After(g.wire[k - 1], g.answers[k - 1], g.accepted);
  }

  /** Requests go out in the order of their jobs, none twice. */
  lemma {:induction false} RequestsInOrder(g: Log, i: nat, k: nat)
    requires Conversation(g) && i < k < |g.wire|
    ensures g.wire[i].job < g.wire[k].job ||
            (g.wire[i].job == g.wire[k].job && g.wire[i].operation < g.wire[k].operation)
    decreases k - i
  {
    assert (g.wire[i + 1].job, g.wire[i + 1].operation) == After(g.wire[i], g.answers[i], g.accepted);
    if i + 1 < k { RequestsInOrder(g, i + 1, k); }
  }

  lemma Accept(g: Log, j: Job)
    requires Conversation(g) && InOrder(g)
    ensures var h := g.(accepted := g.accepted + [j]); Conversation(h) && InOrder(h) && Due(h) == Due(g)
  {
  }

  lemma Begin(g: Log, r: Request)
    requires Conversation(g) && |g.answers| == |g.wire| && Faithful(r, g.accepted) && Due(g) == (r.job, r.operation)
    ensures var h := g.(wire := g.wire + [r]); Conversation(h) && Due(h) == Due(g)
  {
  }

  lemma AnswerArrives(g: Log, a: Status)
    requires Conversation(g) && |g.answers| < |g.wire|
    ensures var h := g.(answers := g.answers + [a]);
            Conversation(h) && Due(h) == After(g.wire[|g.wire| - 1], a, g.accepted)
  {
  }

  lemma Finish(g: Log, status: Status)
    requires InOrder(g) && |g.finished| < |g.accepted|
    ensures InOrder(g.(finished := g.finished + [Done(g.accepted[|g.finished|], status)]))
  {
  }

  // The job ring.

  ghost predicate Holds(jobs: seq<Job>, head: nat, count: nat, waiting: seq<Job>) {
    && |jobs| == CAPACITY && head < CAPACITY && count == |waiting| <= CAPACITY
    && forall i :: 0 <= i < count ==> jobs[(head + i) % CAPACITY] == waiting[i]
  }

  lemma RingPush(jobs: seq<Job>, head: nat, count: nat, waiting: seq<Job>, j: Job)
    requires Holds(jobs, head, count, waiting) && count < CAPACITY
    ensures Holds(jobs[(head + count) % CAPACITY := j], head, count + 1, waiting + [j])
  {
  }

  lemma RingPop(jobs: seq<Job>, head: nat, count: nat, waiting: seq<Job>)
    requires Holds(jobs, head, count, waiting) && count > 0
    ensures Holds(jobs[head := NO_JOB], (head + 1) % CAPACITY, count - 1, waiting[1..])
  {
    forall i | 0 <= i < count - 1
      ensures jobs[head := NO_JOB][((head + 1) % CAPACITY + i) % CAPACITY] == waiting[1..][i]
    {
      assert ((head + 1) % CAPACITY + i) % CAPACITY == (head + (i + 1)) % CAPACITY != head;
    }
  }

  // How far the current request has got.

  function Current(g: Log): Request
    requires g.wire != []
  {
    g.wire[|g.wire| - 1]
  }

  /** Everything before the current request has been sent whole, and of it just the stage's part. */
  predicate Progress(encode: Encoder, g: Log, stage: Stage, offset: nat) {
    if stage == Idle then |g.answers| == |g.wire| && g.sent == Flat(encode, g.wire)
    else
      && |g.answers| < |g.wire|
      && var r, before := Current(g), Flat(encode, g.wire[..|g.wire| - 1]);
         match stage
         case SendHeader =>
           offset < |encode(r.header)| && g.sent == before + encode(r.header)[..offset]
         case SendPayload =>
           offset < |r.payload| && g.sent == before + encode(r.header) + r.payload[..offset]
         case _ => g.sent == Flat(encode, g.wire)
  }

  lemma SentIsPrefix(encode: Encoder, g: Log, stage: Stage, offset: nat)
    requires Progress(encode, g, stage, offset)
    ensures g.sent <= Flat(encode, g.wire)
  {
  }

  /** The stage after `offset` bytes of the current part have gone out. */
  function Onward(encode: Encoder, r: Request, stage: Stage, offset: nat): (Stage, nat) {
    if stage == SendHeader then
      if offset < |encode(r.header)| then (SendHeader, offset)
      else if r.payload != [] then (SendPayload, 0)
      else (ReceiveHeader, 0)
    else
      if offset < |r.payload| then (SendPayload, offset) else (ReceiveHeader, 0)
  }

  /** The bytes of the current part. */
  function Part(encode: Encoder, r: Request, stage: Stage): Bytes {
    if stage == SendHeader then encode(r.header) else r.payload
  }

  lemma Extend(before: Bytes, part: Bytes, offset: nat, n: nat)
    requires offset + n <= |part|
    ensures before + part[..offset] + part[offset..offset + n] == before + part[..offset + n]
    ensures offset + n == |part| ==> part[..offset + n] == part
  {
  }

  lemma SendHeaderOn(encode: Encoder, g: Log, offset: nat, n: nat)
    requires Progress(encode, g, SendHeader, offset) && offset + n <= |encode(Current(g).header)|
    ensures var h := g.(sent := g.sent + encode(Current(g).header)[offset..offset + n]);
            var next := Onward(encode, Current(g), SendHeader, offset + n);
            Progress(encode, h, next.0, next.1)
  {
    var r, before := Current(g), Flat(encode, g.wire[..|g.wire| - 1]);
    Extend(before, encode(r.header), offset, n);
    if offset + n == |encode(r.header)| {
      assert before + encode(r.header) + [] == before + encode(r.header);
      assert encode(r.header) + [] == encode(r.header);
    }
  }

  lemma SendPayloadOn(encode: Encoder, g: Log, offset: nat, n: nat)
    requires Progress(encode, g, SendPayload, offset) && offset + n <= |Current(g).payload|
    ensures var h := g.(sent := g.sent + Current(g).payload[offset..offset + n]);
            var next := Onward(encode, Current(g), SendPayload, offset + n);
            Progress(encode, h, next.0, next.1)
  {
    var r, before := Current(g), Flat(encode, g.wire[..|g.wire| - 1]);
    Extend(before + encode(r.header), r.payload, offset, n);
    assert before + encode(r.header) + r.payload == before + (encode(r.header) + r.payload);
  }

  /** A queue is sound when its connection carries what its jobs ask for and it knows where it is. */
  ghost predicate Sound(encode: Encoder, g: Log, connected: bool, stage: Stage, operation: nat, offset: nat) {
    && Conversation(g) && InOrder(g)
    && if connected
       then Due(g) == (|g.finished|, operation) && Progress(encode, g, stage, offset)
       else stage == Idle && g.sent <= Flat(encode, g.wire)
  }

  datatype Result = Accepted | Busy | Invalid | Disconnected

  /** Everything about a queue but its ring. */
  datatype Shot = Shot(
    log: Log, connected: bool, count: nat, stage: Stage, operation: nat, offset: nat, replyOffset: nat, replySize: nat,
    replyStatus: int, request: Header, version: nat)

  /** The bytes still to move in the current stage. */
  function LeftIn(a: Shot, headerSize: nat): nat {
    match a.stage
    case Idle => 0
    case SendHeader => Rest(headerSize, a.offset)
    case SendPayload => if a.log.wire == [] then 0 else Rest(|Current(a.log).payload|, a.offset)
    case ReceiveHeader => Rest(headerSize, a.replyOffset)
    case ReceivePayload => Rest(a.replySize, a.replyOffset)
  }

  /** How the pump goes on after a complete reply header. */
  predicate RepliesIn(a: Shot, reply: Reply, flow: Flow) {
    |a.log.finished| < |a.log.accepted| &&
    var job := a.log.accepted[|a.log.finished|];
    if !Answers(reply, a.request, a.version, job.replyCapacity) then flow == Lost
    else if reply.header.size != 0 then flow == Continue
    else flow == Verdict(job, a.operation, reply.status)
  }

  /** One turn of the pump: what the answer of clock, socket and compositor leads to. Bytes the socket
      took are sent, bytes it gave are received, and a complete reply decides. */
  ghost predicate Turned(headerSize: nat, a: Shot, answer: Answer, patient: bool, waited: bool, flow: Flow, now: bool,
      b: Shot) {
    var left := if a.stage == Idle then headerSize else LeftIn(a, headerSize);
    && Continues(a.log, b.log) && (flow == Lost <==> !b.connected) && (flow == Lost ==> b.count == 0)
    && (flow == Finished <==> b.connected && |b.log.finished| == |a.log.finished| + 1)
    && (flow == Finished || flow == Lost || b.log.finished == a.log.finished)
    && (!answer.inTime ==> flow == Lost)
    && (answer.inTime ==> Obeys(answer, patient, waited, left, flow, now))
    && (answer.inTime && InRange(answer, left) ==>
          match a.stage
          case ReceiveHeader =>
            if answer.io.count < left
            then flow == Continue && b.stage == ReceiveHeader && b.replyOffset == a.replyOffset + answer.io.count
            else RepliesIn(a, answer.reply, flow)
          case ReceivePayload =>
            if answer.io.count < left
            then flow == Continue && b.stage == ReceivePayload && b.replyOffset == a.replyOffset + answer.io.count
            else |a.log.finished| < |a.log.accepted| &&
                 flow == Verdict(a.log.accepted[|a.log.finished|], a.operation, a.replyStatus)
          case _ => flow == Continue && |b.log.sent| == |a.log.sent| + answer.io.count)
  }

  /** Where the pump stands before a turn, and what the last turn led to. */
  datatype Mark = Mark(shot: Shot, waited: bool, flow: Flow)

  ghost predicate Trail(headerSize: nat, marks: seq<Mark>, patient: bool, answers: seq<Answer>, used: nat) {
    && |marks| == used + 1 && used <= |answers| && !marks[0].waited
    && (forall k :: 0 <= k < used ==>
          Turned(headerSize, marks[k].shot, answers[k], patient, marks[k].waited,
                 marks[k + 1].flow, marks[k + 1].waited, marks[k + 1].shot))
    && (forall k :: 0 <= k < used ==> marks[k].flow == Continue || marks[k].flow == Finished)
  }

  lemma TrailBegins(headerSize: nat, marks: seq<Mark>, patient: bool, answers: seq<Answer>)
    requires |marks| == 1 && !marks[0].waited && marks[0].flow == Continue
    ensures Trail(headerSize, marks, patient, answers, 0)
  {
  }

  lemma TrailGrows(headerSize: nat, marks: seq<Mark>, patient: bool, answers: seq<Answer>, used: nat, next: Mark)
    requires Trail(headerSize, marks, patient, answers, used) && used < |answers|
    requires marks[used].flow == Continue || marks[used].flow == Finished
    requires Turned(headerSize, marks[used].shot, answers[used], patient, marks[used].waited, next.flow, next.waited,
      next.shot)
    ensures Trail(headerSize, marks + [next], patient, answers, used + 1)
  {
    hide Turned;
  }

  /** What one call of the pump comes to: nothing without jobs; every job failed when there is no clock
      or no connection; otherwise turn by turn through the answers until one stops it, the connection
      is lost, enough jobs are done, or none is left. */
  ghost predicate Pumped(headerSize: nat, a: Shot, patient: bool, clock: bool, answers: seq<Answer>, result: int,
      used: nat, marks: seq<Mark>, b: Shot) {
    if a.count == 0 then result == 0 && used == 0 && b == a
    else if !clock || !a.connected then
      result == -1 && used == 0 && !b.connected && b.count == 0 && Aborted(a.log, b.log, IoError)
    else
      && Trail(headerSize, marks, patient, answers, used) && marks[0].shot == a && marks[used].shot == b
      && var last := marks[used].flow;
         if result < 0 then result == -1 && last == Lost
         else
           && last != Lost && result == |b.log.finished| - |a.log.finished| <= COMPLETED_PER_PUMP
           && (last == Stop || result == COMPLETED_PER_PUMP || b.count == 0 || used == |answers|)
  }

  class Queue {
    const encode: Encoder
    const headerSize: nat
    const jobs: array<Job>
    var head: nat
    var count: nat
    var stage: Stage
    var operation: nat
    var offset: nat
    var replyOffset: nat
    var replySize: nat
    var replyStatus: int
    var request: Header
    var nextId: nat
    var connected: bool
    var version: nat
    /** The completions handed on so far. */
    var done: seq<Done>
    ghost var log: Log

    ghost predicate Base()
      reads this, jobs
    {
      && headerSize > 0 && (forall h: Header :: |encode(h)| == headerSize)
      && |log.finished| <= |log.accepted| && done == log.finished
      && Holds(jobs[..], head, count, log.accepted[|log.finished|..])
    }

    ghost predicate Valid()
      reads this, jobs
    {
      && Base() && Sound(encode, log, connected, stage, operation, offset)
      && (stage == Idle ==> operation == 0 && offset == 0) && operation <= 1
      && (stage != Idle ==> count > 0 && log.wire != [] && request == Current(log).header)
      && (stage == ReceivePayload ==> replyOffset <= replySize)
      && (stage == ReceiveHeader ==> replyOffset <= headerSize)
      && (stage == SendHeader || stage == SendPayload ==> replyOffset == 0)
    }

    constructor (encode: Encoder, headerSize: nat, version: nat)
      requires headerSize > 0 && forall h: Header :: |encode(h)| == headerSize
      ensures Valid() && connected && fresh(jobs) && log == Log([], [], 0, [], [], [])
    {
      this.encode, this.headerSize, this.version := encode, headerSize, version;
      jobs := new Job[CAPACITY](_ => NO_JOB);
      head, count, stage, operation, offset, replyOffset := 0, 0, Idle, 0, 0, 0;
      replySize, replyStatus, request, nextId, connected, done := 0, 0, Header(0, 0, 0, 0), 1, true, [];
      log := Log([], [], 0, [], [], []);
    }

    ghost function Picture(): Shot
      reads this
    {
      Shot(log, connected, count, stage, operation, offset, replyOffset, replySize, replyStatus, request, version)
    }

    /** On every connection, the bytes sent are a prefix of the requests of the accepted jobs, in
        order; a second request follows only an Ok answer to the first; and finished jobs are the
        accepted ones, in order. */
    lemma Faithfulness()
      requires Valid()
      ensures Conversation(log) && log.sent <= Flat(encode, log.wire)
      ensures InOrder(log) && |log.finished| + count == |log.accepted| && done == log.finished
    {
      if connected { SentIsPrefix(encode, log, stage, offset); }
    }

    /** Adds a job when it is well formed and the ring has room; `room` says whether there is also room
        for its completion. */
    method Enqueue(j: Job, room: bool) returns (result: Result)
      requires Valid()
      modifies this`count, this`log, jobs
      ensures Valid()
      ensures result ==
              if !connected then Disconnected
              else if |j.payload| > MAX_PAYLOAD || |j.secondPayload| > MAX_SECOND_PAYLOAD ||
                      (j.secondCode == 0) != (j.secondPayload == [])
              then Invalid
              else if old(count) >= CAPACITY || !room then Busy
              else Accepted
      ensures result == Accepted ==> count == old(count) + 1 && log == old(log).(accepted := old(log).accepted + [j])
      ensures result != Accepted ==> unchanged(this) && unchanged(jobs)
    {
      hide Sound, Holds;
      if !connected { return Disconnected; }
      if |j.payload| > MAX_PAYLOAD || |j.secondPayload| > MAX_SECOND_PAYLOAD ||
         (j.secondCode == 0) != (j.secondPayload == [])
      {
        return Invalid;
      }
      if Full() || !room { return Busy; }
      ghost var waiting, slots := log.accepted[|log.finished|..], jobs[..];
      Grow(encode, log, connected, stage, operation, offset, j);
      RingPush(slots, head, count, waiting, j);
      InRing(slots, head, count, waiting);
      jobs[(head + count) % CAPACITY] := j;
      assert jobs[..] == slots[(head + count) % CAPACITY := j];
      log := log.(accepted := log.accepted + [j]);
      assert log.accepted[|log.finished|..] == waiting + [j];
      count := count + 1;
      result := Accepted;
    }

    predicate Full()
      reads this
    {
      count >= CAPACITY
    }

    /** Starts the request of the head job that is due. */
    method BeginOperation()
      requires Base() && Sound(encode, log, true, Idle, operation, 0) && operation <= 1 && connected && count > 0
      modifies this`request, this`nextId, this`offset, this`replyOffset, this`stage, this`log
      ensures Valid() && stage == SendHeader && offset == 0
      ensures log == old(log).(wire := old(log).wire + [Current(log)])
      ensures request.version == version && request.id != 0 && request.id != U32_MAX
    {
      hide Sound, Holds;
      InRing(jobs[..], head, count, log.accepted[|log.finished|..]);
      var job := jobs[head];
      var id := if IdValid(nextId) then nextId else 1;
      request := Header(version, CodeOf(job, operation), |PayloadOf(job, operation)|, id);
      nextId := if IdValid(id + 1) then id + 1 else 1;
      ghost var r := Request(|log.finished|, operation, request, PayloadOf(job, operation));
      Start(encode, log, operation, job, r);
      log := log.(wire := log.wire + [r]);
      offset, replyOffset, stage := 0, 0, SendHeader;
    }

    /** Takes the head job off the ring and records its completion. */
    method Pop(status: Status) returns (job: Job)
      requires Base() && count > 0 && InOrder(log)
      modifies this`head, this`count, this`done, this`log, jobs
      ensures Base() && InOrder(log) && count == old(count) - 1
      ensures |old(log).finished| < |log.accepted| && job == log.accepted[|old(log).finished|]
      ensures log == old(log).(finished := old(log).finished + [Done(job, status)])
    {
      hide Holds;
      ghost var waiting, slots := log.accepted[|log.finished|..], jobs[..];
      InRing(slots, head, count, waiting);
      job := jobs[head];
      RingPop(slots, head, count, waiting);
      jobs[head] := NO_JOB;
      assert jobs[..] == slots[head := NO_JOB];
      done := done + [Done(job, status)];
      log := log.(finished := log.finished + [Done(job, status)]);
      assert log.accepted[|log.finished|..] == waiting[1..];
      head, count := (head + 1) % CAPACITY, count - 1;
    }

    /** The head job has had its last answer. */
    method CompleteHead(status: Status) returns (job: Job)
      requires Base() && connected && count > 0 && Answered(encode, log)
      modifies this`head, this`count, this`done, this`log, this`stage, this`operation, this`offset, this`replyOffset,
        jobs
      ensures Valid() && stage == Idle && count == old(count) - 1
      ensures |old(log).finished| < |log.accepted| && job == log.accepted[|old(log).finished|]
      ensures log == old(log).(finished := old(log).finished + [Done(job, status)])
    {
      job := Pop(status);
      stage, operation, offset, replyOffset := Idle, 0, 0, 0;
    }

    /** Every queued job is completed with the same status, oldest first. */
    method AbortAll(status: Status)
      requires Base() && !connected && Conversation(log) && InOrder(log) && log.sent <= Flat(encode, log.wire)
      modifies this`head, this`count, this`done, this`log, this`stage, this`operation, this`offset, this`replyOffset,
        jobs
      ensures Valid() && count == 0 && |log.finished| == |log.accepted|
      ensures Aborted(old(log), log, status)
    {
      hide Holds, Conversation, InOrder, Aborted, Flat;
      NothingAborted(log, status);
      while count != 0
        invariant Base() && InOrder(log) && Aborted(old(log), log, status)
        decreases count
      {
        ghost var before := log;
        var job := Pop(status);
        AbortMore(old(log), before, Done(job, status));
      }
      stage, operation, offset, replyOffset := Idle, 0, 0, 0;
      AllAborted(encode, old(log), log, status);
      InRing(jobs[..], head, count, log.accepted[|log.finished|..]);
    }

    method Close()
      requires Base() && Conversation(log) && InOrder(log) && log.sent <= Flat(encode, log.wire)
      modifies this`head, this`count, this`done, this`log, this`stage, this`operation, this`offset, this`replyOffset
      modifies this`connected, this`version, jobs
      ensures Valid() && !connected && count == 0 && |log.finished| == |log.accepted|
      ensures Aborted(old(log), log, IoError) && Continues(old(log), log)
    {
      hide Holds, Conversation, InOrder, Sound, Flat;
      connected, version := false, PROTOCOL_VERSION;
      AbortAll(IoError);
    }

    /** A new connection starts a new conversation with the job at the head of the queue. */
    method Connect(negotiated: nat)
      requires Valid() && !connected
      modifies this`connected, this`version, this`log
      ensures Valid() && connected && version == negotiated
      ensures log == Log(old(log).accepted, old(log).finished, |old(log).finished|, [], [], [])
    {
      connected, version := true, negotiated;
      log := Log(log.accepted, log.finished, |log.finished|, [], [], []);
    }

    /** Bytes of the current part go out. */
    method SendBytes(n: nat)
      requires Valid() && connected && (stage == SendHeader || stage == SendPayload)
      requires 1 <= n <= |Part(encode, Current(log), stage)| - offset
      modifies this`stage, this`offset, this`log
      ensures Valid() && Continues(old(log), log) && log == old(log).(sent := log.sent)
      ensures (stage, offset) == Onward(encode, Current(log), old(stage), old(offset) + n)
      ensures |log.sent| == |old(log).sent| + n
    {
      hide Holds, Sound, Onward;
      InRing(jobs[..], head, count, log.accepted[|log.finished|..]);
      SendOn(encode, log, stage, operation, offset, n, jobs[head]);
      var payload := PayloadOf(jobs[head], operation);
      var part := if stage == SendHeader then encode(request) else payload;
      OnwardIs(encode, Current(log), stage, offset + n);
      log := log.(sent := log.sent + part[offset..offset + n]);
      offset := offset + n;
      if offset >= |part| {
        offset := 0;
        stage := if stage == SendHeader && |payload| != 0 then SendPayload else ReceiveHeader;
      }
    }

    /** The whole answer to the current request is there: the job goes on to its second request or is
        completed. */
    method Settle(code: int) returns (completed: bool)
      requires Valid() && connected && (stage == ReceiveHeader || stage == ReceivePayload)
      modifies this, jobs
      ensures Valid() && Continues(old(log), log)
      ensures |log.answers| == |old(log).answers| + 1 && log.answers[|old(log).answers|] == PublicStatus(code)
      ensures |old(log).finished| < |log.accepted|
      ensures var job := old(log).accepted[|old(log).finished|];
              completed <==> !(old(operation) == 0 && HasSecond(job) && PublicStatus(code) == Ok)
      ensures !completed ==> connected && operation == 1 && stage == SendHeader && log.finished == old(log).finished
      ensures completed ==>
                var job := old(log).accepted[|old(log).finished|];
                && |old(log).finished| < |log.finished| &&
                     log.finished[|old(log).finished|] == Done(job, PublicStatus(code))
                && connected == !Ends(job, code)
                && (connected ==> |log.finished| == |old(log).finished| + 1 && stage == Idle)
                && (!connected ==> count == 0)
    {
      hide Holds, Sound, Conversation, InOrder, Flat, Answered;
      InRing(jobs[..], head, count, log.accepted[|log.finished|..]);
      var job := jobs[head];
      var known := StatusKnown(code);
      var status := if known then PublicStatus(code) else Corrupt;
      Replied(encode, log, stage, operation, offset, job, status);
      log := log.(answers := log.answers + [status]);
      completed := !(operation == 0 && HasSecond(job) && status == Ok);
      if !completed {
        operation := 1;
        BeginOperation();
      } else {
        var last := CompleteHead(status);
        if !known || ((job.kind == Resize || job.kind == Plain) && status != Ok) {
          StillPrefix(encode, log, connected, stage, operation, offset);
          Close();
        }
      }
    }

    /** The bytes still to move in the current stage. */
    ghost function Left(): nat
      reads this
    {
      LeftIn(Picture(), headerSize)
    }

    /** What a step of the pump promises, whatever the socket and the clock do. */
    twostate predicate Steps(flow: Flow, waited: bool, now: bool)
      reads this, jobs
    {
      && Valid() && Continues(old(log), log)
      && (flow == Lost <==> !connected)
      && (flow == Lost ==> count == 0)
      && (flow == Finished <==> connected && |log.finished| == |old(log).finished| + 1)
      && (flow == Finished || flow == Lost || log.finished == old(log).finished)
      && (flow == Continue ==>
          || old(operation) < operation
          || (operation == old(operation) && Rank(stage) < Rank(old(stage)))
          || (operation == old(operation) && stage == old(stage) && Left() < old(Left()))
          || (unchanged(this) && unchanged(jobs) && now && !waited))
    }

    method Lose(ghost waited: bool, ghost now: bool)
      requires Valid() && connected
      modifies this, jobs
      ensures Steps(Lost, waited, now)
    {
      hide Holds, Sound, Conversation, InOrder, Flat;
      StillPrefix(encode, log, connected, stage, operation, offset);
      Close();
    }

    /** The socket is not ready: wait once, within the caller's time. */
    method Await(patient: bool, waited: bool, ready: int) returns (flow: Flow, now: bool)
      requires Valid() && connected
      modifies this, jobs
      ensures Steps(flow, waited, now) && (flow, now) == AfterWait(patient, waited, ready)
    {
      flow, now := AfterWait(patient, waited, ready).0, AfterWait(patient, waited, ready).1;
      if flow == Lost { Lose(waited, now); }
    }

    /** Sends as many bytes of the current part as the socket takes. */
    method SendStep(answer: Answer, patient: bool, waited: bool) returns (flow: Flow, now: bool)
      requires Valid() && connected && (stage == SendHeader || stage == SendPayload)
      modifies this, jobs
      ensures Steps(flow, waited, now) && Obeys(answer, patient, waited, old(Left()), flow, now)
      ensures InRange(answer, old(Left())) ==> flow == Continue && |log.sent| == |old(log).sent| + answer.io.count
    {
      hide Holds, Sound, Conversation, InOrder, Flat, Continues;
      now := waited;
      InRing(jobs[..], head, count, log.accepted[|log.finished|..]);
      AtHead(encode, log, stage, operation, offset, jobs[head]);
      var expected := if stage == SendHeader then headerSize else |PayloadOf(jobs[head], operation)|;
      if answer.io == Interrupted {
        StaysPut(log);
        flow := Stop;
      } else if answer.io == NotReady {
        flow, now := Await(patient, waited, answer.ready);
      } else if answer.io.Moved? && 1 <= answer.io.count <= expected - offset {
        SendBytes(answer.io.count);
        flow := Continue;
      } else {
        Lose(waited, now);
        flow := Lost;
      }
    }

    /** Part of the reply's header arrives; a complete one must answer the current request. */
    method ReceiveHeaderStep(answer: Answer, patient: bool, waited: bool) returns (flow: Flow, now: bool)
      requires Valid() && connected && stage == ReceiveHeader
      modifies this, jobs
      ensures Steps(flow, waited, now) && Obeys(answer, patient, waited, old(Left()), flow, now)
      ensures InRange(answer, old(Left())) && answer.io.count < old(Left()) ==>
                flow == Continue && stage == ReceiveHeader && replyOffset == old(replyOffset) + answer.io.count
      ensures InRange(answer, old(Left())) && answer.io.count == old(Left()) ==>
        RepliesIn(old(Picture()), answer.reply, flow)
    {
      hide Holds, Sound, Conversation, InOrder, Flat, Continues;
      now := waited;
      if answer.io == Interrupted {
        StaysPut(log);
        flow := Stop;
      } else if answer.io == NotReady {
        flow, now := Await(patient, waited, answer.ready);
      } else if answer.io.Moved? && 1 <= answer.io.count <= headerSize - replyOffset {
        replyOffset := replyOffset + answer.io.count;
        StaysPut(log);
        flow := Continue;
        if replyOffset == headerSize {
          flow := TakeReply(answer.reply, waited, now);
        }
      } else {
        Lose(waited, now);
        flow := Lost;
      }
    }

    /** A reply must match the request in every field and fit the space kept for it. */
    method TakeReply(reply: Reply, ghost waited: bool, ghost now: bool) returns (flow: Flow)
      requires Valid() && connected && stage == ReceiveHeader
      modifies this, jobs
      ensures Steps(flow, waited, now) && RepliesIn(old(Picture()), reply, flow)
      ensures flow == Continue && reply.header.size != 0 ==>
                stage == ReceivePayload && replyOffset == 0 && replySize == reply.header.size &&
                  replyStatus == reply.status
    {
      hide Holds, Sound, Conversation, InOrder, Flat, Continues;
      InRing(jobs[..], head, count, log.accepted[|log.finished|..]);
      AtHead(encode, log, stage, operation, offset, jobs[head]);
      StaysPut(log);
      if !reply.magic || reply.header.version != version || reply.header.code != CodeOf(jobs[head], operation) ||
         reply.header.id != request.id || reply.header.size > jobs[head].replyCapacity || reply.header.size > MAX_REPLY
      {
        Lose(waited, now);
        return Lost;
      }
      replySize, replyStatus := reply.header.size, reply.status;
      if replySize != 0 {
        MorePayload(encode, log, operation, offset);
        stage, replyOffset := ReceivePayload, 0;
        flow := Continue;
      } else {
        flow := Conclude(waited, now);
      }
    }

    /** Part of the reply's payload arrives. */
    method ReceivePayloadStep(answer: Answer, patient: bool, waited: bool) returns (flow: Flow, now: bool)
      requires Valid() && connected && stage == ReceivePayload
      modifies this, jobs
      ensures Steps(flow, waited, now) && Obeys(answer, patient, waited, old(Left()), flow, now)
      ensures InRange(answer, old(Left())) && answer.io.count < old(Left()) ==>
                flow == Continue && stage == ReceivePayload && replyOffset == old(replyOffset) + answer.io.count
      ensures InRange(answer, old(Left())) && answer.io.count == old(Left()) ==>
                |old(log).finished| < |old(log).accepted| &&
                flow == Verdict(old(log).accepted[|old(log).finished|], old(operation), old(replyStatus))
    {
      hide Holds, Sound, Conversation, InOrder, Flat, Continues;
      now := waited;
      if answer.io == Interrupted {
        StaysPut(log);
        flow := Stop;
      } else if answer.io == NotReady {
        flow, now := Await(patient, waited, answer.ready);
      } else if answer.io.Moved? && 1 <= answer.io.count <= replySize - replyOffset {
        replyOffset := replyOffset + answer.io.count;
        StaysPut(log);
        flow := Continue;
        if replyOffset == replySize { flow := Conclude(waited, now); }
      } else {
        Lose(waited, now);
        flow := Lost;
      }
    }

    /** Settles the answered request and says how the pump goes on. */
    method Conclude(ghost waited: bool, ghost now: bool) returns (flow: Flow)
      requires Valid() && connected && (stage == ReceiveHeader || stage == ReceivePayload)
      modifies this, jobs
      ensures Steps(flow, waited, now)
      ensures |old(log).finished| < |old(log).accepted| &&
              flow == Verdict(old(log).accepted[|old(log).finished|], old(operation), old(replyStatus))
      ensures flow == Continue ==> old(operation) < operation
    {
      hide Holds, Sound, Conversation, InOrder, Flat;
      var completed := Settle(replyStatus);
      flow := if !connected then Lost else if completed then Finished else Continue;
    }

    /** Moves the queue along as far as the socket allows, for at most a few completed jobs. A lost
        connection completes every job; otherwise as many complete as are reported. The answers are
        what clock, socket and compositor say, turn by turn; the pump goes on until one of them
        makes it stop. */
    method Pump(patient: bool, clock: bool, answers: seq<Answer>)
      returns (result: int, used: nat, ghost marks: seq<Mark>)
      requires Valid()
      modifies this, jobs
      ensures Valid() && Continues(old(log), log) && used <= |answers|
      ensures result < 0 ==> !connected && count == 0
      ensures result >= 0 ==> result == |log.finished| - |old(log).finished| && connected == old(connected)
      ensures Pumped(headerSize, old(Picture()), patient, clock, answers, result, used, marks, Picture())
    {
      hide Holds, Sound, Conversation, InOrder, Flat, Turned, Trail;
      used, result, marks := 0, 0, [Mark(Picture(), false, Continue)];
      if count == 0 { return; }
      StillPrefix(encode, log, connected, stage, operation, offset);
      if !clock {
        Close();
        return -1, 0, marks;
      }
      if !connected {
        AbortAll(IoError);
        return -1, 0, marks;
      }
      var waited := false;
      TrailBegins(headerSize, marks, patient, answers);
      while result < COMPLETED_PER_PUMP && count != 0 && used < |answers|
        invariant Valid() && connected && Continues(old(log), log) && used <= |answers|
        invariant 0 <= result == |log.finished| - |old(log).finished| <= COMPLETED_PER_PUMP
        invariant |marks| == used + 1 && Trail(headerSize, marks, patient, answers, used)
        invariant marks[0].shot == old(Picture()) && marks[used].shot == Picture() && marks[used].waited == waited
        invariant marks[used].flow == Continue || marks[used].flow == Finished
        decreases COMPLETED_PER_PUMP - result, 1 - operation, Rank(stage), Left(), !waited
      {
        var flow: Flow;
        flow, waited := Turn(answers[used], patient, waited);
        TrailGrows(headerSize, marks, patient, answers, used, Mark(Picture(), waited, flow));
        marks := marks + [Mark(Picture(), waited, flow)];
        used := used + 1;
        if flow == Lost { return -1, used, marks; }
        if flow == Stop { return; }
        if flow == Finished { result := result + 1; }
      }
    }

    /** One turn of the pump's loop. */
    method Turn(answer: Answer, patient: bool, waited: bool) returns (flow: Flow, now: bool)
      requires Valid() && connected && count > 0
      modifies this, jobs
      ensures Steps(flow, waited, now) &&
        Turned(headerSize, old(Picture()), answer, patient, waited, flow, now, Picture())
    {
      hide Holds, Sound, Conversation, InOrder, Flat;
      now := waited;
      if stage == Idle { BeginOperation(); }
      if !answer.inTime {
        Lose(waited, now);
        return Lost, now;
      }
      if stage == ReceiveHeader {
        flow, now := ReceiveHeaderStep(answer, patient, waited);
      } else if stage == ReceivePayload {
        flow, now := ReceivePayloadStep(answer, patient, waited);
      } else {
        flow, now := SendStep(answer, patient, waited);
      }
    }
  }

  lemma StaysPut(g: Log)
    ensures Continues(g, g)
  {
  }

  /** What the clock, the socket and the compositor say at one turn. */
  datatype Answer = Answer(inTime: bool, io: Io, ready: int, reply: Reply)

  function AfterWait(patient: bool, waited: bool, ready: int): (Flow, bool) {
    if !patient || waited then (Stop, waited)
    else if ready > 0 then (Continue, true)
    else if ready == 0 then (Stop, true)
    else (Lost, true)
  }

  /** The socket moved some bytes, and not more than were asked for. */
  predicate InRange(answer: Answer, left: nat) { answer.io.Moved? && 1 <= answer.io.count <= left }

  /** Whatever the stage: an interruption stops the pump, an unready socket is awaited once, and a
      failure or an impossible count loses the connection. */
  predicate Obeys(answer: Answer, patient: bool, waited: bool, left: nat, flow: Flow, now: bool) {
    && (answer.io == Interrupted ==> flow == Stop && now == waited)
    && (answer.io == NotReady ==> (flow, now) == AfterWait(patient, waited, answer.ready))
    && (answer.io == Failed || (answer.io.Moved? && !InRange(answer, left)) ==> flow == Lost)
    && (InRange(answer, left) ==> flow != Stop && now == waited)
  }

  predicate Answers(reply: Reply, request: Header, version: nat, capacity: nat) {
    && reply.magic && reply.header.version == version
    && reply.header.code == request.code && reply.header.id == request.id
    && reply.header.size <= capacity && reply.header.size <= MAX_REPLY
  }

  /** What a complete answer with this status leads to. */
  function Verdict(job: Job, operation: nat, code: int): Flow {
    if operation == 0 && HasSecond(job) && PublicStatus(code) == Ok then Continue
    else if Ends(job, code) then Lost
    else Finished
  }

  function Rest(size: nat, offset: nat): nat { if offset <= size then size - offset else 0 }

  datatype Io = Moved(count: nat) | Interrupted | NotReady | Failed

  /** A decoded reply header, as the compositor chose to send it. */
  datatype Reply = Reply(magic: bool, header: Header, status: int)

  datatype Flow = Continue | Finished | Stop | Lost

  function Rank(stage: Stage): nat {
    match stage
    case Idle => 5
    case SendHeader => 4
    case SendPayload => 3
    case ReceiveHeader => 2
    case ReceivePayload => 1
  }

  const PROTOCOL_VERSION: nat := 1
  const NO_JOB := Job(0, [], 0, [], 0, Plain, 0, 0)

  /** Only completions with this status were added. */
  ghost predicate Aborted(g: Log, h: Log, status: Status) {
    && h == g.(finished := h.finished) && g.finished <= h.finished
    && forall i :: |g.finished| <= i < |h.finished| ==> h.finished[i].status == status
  }

  lemma NothingAborted(g: Log, status: Status)
    ensures Aborted(g, g, status)
  {
  }

  lemma AbortMore(g: Log, h: Log, done: Done)
    requires Aborted(g, h, done.status)
    ensures Aborted(g, h.(finished := h.finished + [done]), done.status)
  {
  }

  lemma AllAborted(encode: Encoder, g: Log, h: Log, status: Status)
    requires Aborted(g, h, status) && Conversation(g) && InOrder(h) && g.sent <= Flat(encode, g.wire)
    ensures Sound(encode, h, false, Idle, 0, 0)
  {
  }

  /** The log only grows, on the same connection and for the same jobs. */
  ghost predicate Continues(g: Log, h: Log) {
    && h.accepted == g.accepted && h.base == g.base
    && g.finished <= h.finished && g.wire <= h.wire && g.answers <= h.answers && g.sent <= h.sent
  }

  /** The head job's last answer has arrived. */
  ghost predicate Answered(encode: Encoder, g: Log) {
    && Conversation(g) && InOrder(g) && Progress(encode, g, Idle, 0) && Due(g) == (|g.finished| + 1, 0)
  }

  /** An unknown status, or the failure of a resize or a plain job, ends the connection. */
  predicate Ends(job: Job, code: int) {
    !StatusKnown(code) || ((job.kind == Resize || job.kind == Plain) && PublicStatus(code) != Ok)
  }

  /** Recording the answer leaves the queue ready for the second request, or the job finished. */
  lemma Replied(encode: Encoder, g: Log, stage: Stage, operation: nat, offset: nat, job: Job, status: Status)
    requires Sound(encode, g, true, stage, operation, offset) && (stage == ReceiveHeader || stage == ReceivePayload)
    requires |g.finished| < |g.accepted| && g.accepted[|g.finished|] == job
    ensures var h := g.(answers := g.answers + [status]);
            if operation == 0 && HasSecond(job) && status == Ok
            then Sound(encode, h, true, Idle, 1, 0)
            else Answered(encode, h)
  {
    AnswerArrives(g, status);
  }

  lemma MorePayload(encode: Encoder, g: Log, operation: nat, offset: nat)
    requires Sound(encode, g, true, ReceiveHeader, operation, offset)
    ensures Sound(encode, g, true, ReceivePayload, operation, offset)
  {
  }

  lemma StillPrefix(encode: Encoder, g: Log, connected: bool, stage: Stage, operation: nat, offset: nat)
    requires Sound(encode, g, connected, stage, operation, offset)
    ensures Conversation(g) && InOrder(g) && g.sent <= Flat(encode, g.wire)
  {
    if connected { SentIsPrefix(encode, g, stage, offset); }
  }

  lemma OnwardIs(encode: Encoder, r: Request, stage: Stage, offset: nat)
    requires stage == SendHeader || stage == SendPayload
    ensures var part := if stage == SendHeader then encode(r.header) else r.payload;
            Onward(encode, r, stage, offset) ==
            if offset < |part| then (stage, offset)
            else (if stage == SendHeader && |r.payload| != 0 then SendPayload else ReceiveHeader, 0)
  {
  }

  lemma SendOn(encode: Encoder, g: Log, stage: Stage, operation: nat, offset: nat, n: nat, job: Job)
    requires Sound(encode, g, true, stage, operation, offset) && (stage == SendHeader || stage == SendPayload)
    requires |g.finished| < |g.accepted| && g.accepted[|g.finished|] == job && g.wire != []
    requires offset + n <= |Part(encode, Current(g), stage)|
    ensures Current(g).payload == PayloadOf(job, operation)
    ensures var h := g.(sent := g.sent + Part(encode, Current(g), stage)[offset..offset + n]);
            var next := Onward(encode, Current(g), stage, offset + n);
            Sound(encode, h, true, next.0, operation, next.1) && Continues(g, h)
  {
    hide Onward;
    CurrentIsHead(g, operation, job);
    if stage == SendHeader {
      SendHeaderOn(encode, g, offset, n);
    } else {
      SendPayloadOn(encode, g, offset, n);
    }
  }

  lemma AtHead(encode: Encoder, g: Log, stage: Stage, operation: nat, offset: nat, job: Job)
    requires Sound(encode, g, true, stage, operation, offset) && stage != Idle
    requires |g.finished| < |g.accepted| && g.accepted[|g.finished|] == job && g.wire != []
    ensures Current(g).payload == PayloadOf(job, operation) && Current(g).header.code == CodeOf(job, operation)
    ensures stage == SendHeader || stage == SendPayload ==> offset < |Part(encode, Current(g), stage)|
  {
    CurrentIsHead(g, operation, job);
  }

  lemma CurrentIsHead(g: Log, operation: nat, job: Job)
    requires Conversation(g) && |g.answers| < |g.wire| && Due(g) == (|g.finished|, operation)
    requires |g.finished| < |g.accepted| && g.accepted[|g.finished|] == job
    ensures Current(g).payload == PayloadOf(job, operation) && Current(g).header.code == CodeOf(job, operation)
  {
  }

  predicate IdValid(id: nat) { id != 0 && id != U32_MAX }

  /** Beginning the due request of the head job keeps the queue sound. */
  lemma Start(encode: Encoder, g: Log, operation: nat, job: Job, r: Request)
    requires Sound(encode, g, true, Idle, operation, 0)
    requires |g.finished| < |g.accepted| && g.accepted[|g.finished|] == job && |encode(r.header)| > 0
    requires r == Request(|g.finished|, operation, r.header, PayloadOf(job, operation))
    requires r.header.code == CodeOf(job, operation) && r.header.size == |PayloadOf(job, operation)|
    ensures var h := g.(wire := g.wire + [r]);
            Sound(encode, h, true, SendHeader, operation, 0) && h.wire != [] && Current(h) == r
  {
    var h := g.(wire := g.wire + [r]);
    Begin(g, r);
    assert h.wire[..|h.wire| - 1] == g.wire;
    assert encode(r.header)[..0] == [];
  }

  lemma InRing(jobs: seq<Job>, head: nat, count: nat, waiting: seq<Job>)
    requires Holds(jobs, head, count, waiting)
    ensures |jobs| == CAPACITY && head < CAPACITY && count == |waiting| <= CAPACITY
    ensures count > 0 ==> jobs[head] == waiting[0]
  {
    assert (head + 0) % CAPACITY == head;
  }

  lemma Grow(encode: Encoder, g: Log, connected: bool, stage: Stage, operation: nat, offset: nat, j: Job)
    requires Sound(encode, g, connected, stage, operation, offset)
    ensures Sound(encode, g.(accepted := g.accepted + [j]), connected, stage, operation, offset)
  {
    Accept(g, j);
  }

  // Whole runs.

  datatype Command =
    | Ask(job: Job, room: bool)
    | Move(patient: bool, clock: bool, answers: seq<Answer>)
    | Reopen(version: nat)

  /** What comes of a command: an answer, or how far the pump got. */
  datatype Outcome = Asked(result: Result) | Ran(moved: int, used: nat, marks: seq<Mark>) | Opened

  function AskAnswer(a: Shot, j: Job, room: bool): Result {
    if !a.connected then Disconnected
    else if |j.payload| > MAX_PAYLOAD || |j.secondPayload| > MAX_SECOND_PAYLOAD ||
            (j.secondCode == 0) != (j.secondPayload == [])
    then Invalid
    else if a.count >= CAPACITY || !room then Busy
    else Accepted
  }

  /** What each command does, by the state it meets. */
  ghost predicate Transition(headerSize: nat, a: Shot, command: Command, outcome: Outcome, b: Shot) {
    match command
    case Ask(job, room) =>
      && outcome == Asked(AskAnswer(a, job, room))
      && b == (if outcome.result == Accepted
               then a.(count := a.count + 1, log := a.log.(accepted := a.log.accepted + [job])) else a)
    case Move(patient, clock, answers) =>
      && outcome.Ran? && Continues(a.log, b.log)
      && Pumped(headerSize, a, patient, clock, answers, outcome.moved, outcome.used, outcome.marks, b)
    case Reopen(version) =>
      && outcome == Opened
      && b == (if a.connected then a else a.(connected := true, version := version,
               log := Log(a.log.accepted, a.log.finished, |a.log.finished|, [], [], [])))
  }

  /** The jobs that were taken. */
  function Taken(script: seq<Command>, outcomes: seq<Outcome>): seq<Job>
    requires |script| == |outcomes|
  {
    if script == [] then [] else
    var n := |script| - 1;
    Taken(script[..n], outcomes[..n]) + if script[n].Ask? && outcomes[n] == Asked(Accepted) then [script[n].job] else []
  }

  ghost predicate History(headerSize: nat, shots: seq<Shot>, script: seq<Command>, outcomes: seq<Outcome>) {
    && |shots| == |script| + 1 && |outcomes| == |script|
    && forall i :: 0 <= i < |script| ==> Transition(headerSize, shots[i], script[i], outcomes[i], shots[i + 1])
  }

  lemma HistoryGrows(headerSize: nat, shots: seq<Shot>, script: seq<Command>, outcomes: seq<Outcome>, command: Command,
                     outcome: Outcome, next: Shot)
    requires History(headerSize, shots, script, outcomes)
    requires Transition(headerSize, shots[|script|], command, outcome, next)
    ensures History(headerSize, shots + [next], script + [command], outcomes + [outcome])
    ensures Taken(script + [command], outcomes + [outcome])
         == Taken(script, outcomes) + if command.Ask? && outcome == Asked(Accepted) then [command.job] else []
  {
    hide Transition;
    assert (script + [command])[..|script|] == script && (outcomes + [outcome])[..|script|] == outcomes;
  }

  method Obey(queue: Queue, command: Command) returns (ghost outcome: Outcome)
    requires queue.Valid()
    modifies queue, queue.jobs
    ensures queue.Valid()
    ensures Transition(queue.headerSize, old(queue.Picture()), command, outcome, queue.Picture())
  {
    hide Sound, Holds, Conversation, Flat, InOrder, Turned, Trail, Pumped, Continues;
    match command {
      case Ask(job, room) => {
        var result := queue.Enqueue(job, room);
        outcome := Asked(result);
      }
      case Move(patient, clock, answers) => {
        var moved, used;
        ghost var marks;
        moved, used, marks := queue.Pump(patient, clock, answers);
        outcome := Ran(moved, used, marks);
      }
      case Reopen(version) => {
        if !queue.connected { queue.Connect(version); }
        outcome := Opened;
      }
    }
  }

  /** Over every run of requests, pumps and reconnections, the queue does what each command asks; the
      jobs taken finish in the order they were taken, each once, and what is not finished is still
      queued. */
  method Run(queue: Queue, script: seq<Command>) returns (ghost shots: seq<Shot>, ghost outcomes: seq<Outcome>)
    requires queue.Valid()
    modifies queue, queue.jobs
    ensures queue.Valid() && History(queue.headerSize, shots, script, outcomes)
    ensures shots[0] == old(queue.Picture()) && shots[|script|] == queue.Picture()
    ensures queue.log.accepted == old(queue.log).accepted + Taken(script, outcomes)
    ensures old(queue.log).finished <= queue.log.finished
    ensures InOrder(queue.log) && |queue.log.finished| + queue.count == |queue.log.accepted|
  {
    hide Sound, Holds, Conversation, Flat, InOrder, History, Taken, Pumped;
    shots, outcomes := [queue.Picture()], [];
    HistoryBegins(queue.headerSize, shots);
    for i := 0 to |script|
      invariant queue.Valid() && |shots| == i + 1 && |outcomes| == i
      invariant shots[0] == old(queue.Picture()) && shots[i] == queue.Picture()
      invariant History(queue.headerSize, shots, script[..i], outcomes)
      invariant queue.log.accepted == old(queue.log).accepted + Taken(script[..i], outcomes)
      invariant old(queue.log).finished <= queue.log.finished
    {
      ghost var outcome := Obey(queue, script[i]);
      HistoryGrows(queue.headerSize, shots, script[..i], outcomes, script[i], outcome, queue.Picture());
      assert script[..i + 1] == script[..i] + [script[i]];
      shots, outcomes := shots + [queue.Picture()], outcomes + [outcome];
    }
    assert script[..|script|] == script;
    queue.Faithfulness();
  }

  lemma HistoryBegins(headerSize: nat, shots: seq<Shot>)
    requires |shots| == 1
    ensures History(headerSize, shots, [], []) && Taken([], []) == []
  {
  }
}
