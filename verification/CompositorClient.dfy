/** The request queue and the window table are two sides of one client: what is queued on one side is
    queued on the other, and what the queue finishes takes effect in the table exactly once. */
module CompositorClient {
  import opened Common
  import opened CompositorJobs
  import Q = AsyncQueue
  import R = GuiRuntime

  function Public(status: Q.Status): R.Status {
    match status
    case Ok => R.Ok
    case InvalidArgument => R.InvalidArgument
    case AccessDenied => R.AccessDenied
    case IoError => R.IoError
    case WouldBlock => R.WouldBlock
    case VersionMismatch => R.VersionMismatch
    case NotSupported => R.NotSupported
    case Corrupt => R.Corrupt
  }

  /** One job, as the wire and as the window table know it. */
  predicate Same(q: Q.Job, r: R.Job) { q.kind == r.kind && q.handle == r.handle && q.cookie == r.cookie }

  predicate AllSame(qs: seq<Q.Job>, rs: seq<R.Job>) {
    |qs| == |rs| && forall i :: 0 <= i < |qs| ==> Same(qs[i], rs[i])
  }

  /** A job that took effect, the status it took effect with, and whether its answer was well formed. */
  datatype Effect = Effect(job: R.Job, status: R.Status, intact: bool)

  /** Every finished job took effect once, in order, with the status it finished with. */
  predicate Matched(finished: seq<Q.Done>, effects: seq<Effect>) {
    && |finished| == |effects|
    && forall i :: 0 <= i < |finished| ==>
         Same(finished[i].job, effects[i].job) && effects[i].status == Public(finished[i].status)
  }

  /** What the effects report to whoever listens. */
  function Announced(surfaces: seq<R.Surface>, effects: seq<Effect>): seq<R.Completion>
    requires |surfaces| == R.MAX_SURFACES
  {
    if effects == [] then [] else
    var e := effects[|effects| - 1];
    Announced(surfaces, effects[..|effects| - 1]) + R.Report(surfaces, e.job, R.Final(e.job, e.status, e.intact))
  }

  /** The payloads fit the ring's slots. */
  predicate Fits(j: Q.Job) {
    |j.payload| <= Q.MAX_PAYLOAD && |j.secondPayload| <= Q.MAX_SECOND_PAYLOAD &&
      (j.secondCode == 0) == (j.secondPayload == [])
  }

  lemma SameGrow(qs: seq<Q.Job>, rs: seq<R.Job>, q: Q.Job, r: R.Job)
    requires AllSame(qs, rs) && Same(q, r)
    ensures AllSame(qs + [q], rs + [r])
  {
  }

  lemma SameShrink(qs: seq<Q.Job>, rs: seq<R.Job>)
    requires AllSame(qs, rs) && qs != []
    ensures AllSame(qs[1..], rs[1..]) && Same(qs[0], rs[0])
  {
  }

  lemma MatchedGrow(finished: seq<Q.Done>, effects: seq<Effect>, d: Q.Done, e: Effect)
    requires Matched(finished, effects) && Same(d.job, e.job) && e.status == Public(d.status)
    ensures Matched(finished + [d], effects + [e])
  {
  }

  lemma NothingAnnounced(surfaces: seq<R.Surface>)
    requires |surfaces| == R.MAX_SURFACES
    ensures Announced(surfaces, []) == []
  {
  }

  lemma AnnouncedGrow(surfaces: seq<R.Surface>, effects: seq<Effect>, e: Effect)
    requires |surfaces| == R.MAX_SURFACES
    ensures Announced(surfaces, effects + [e])
         == Announced(surfaces, effects) + R.Report(surfaces, e.job, R.Final(e.job, e.status, e.intact))
  {
    assert (effects + [e])[..|effects|] == effects;
  }

  lemma SameShrinkAt(qs: seq<Q.Job>, k: nat, rs: seq<R.Job>)
    requires k < |qs| && AllSame(qs[k..], rs)
    ensures rs != [] && Same(qs[k], rs[0]) && AllSame(qs[k + 1..], rs[1..])
  {
    SameShrink(qs[k..], rs);
    assert qs[k..][1..] == qs[k + 1..];
  }

  lemma MatchedGrowAt(finished: seq<Q.Done>, k: nat, effects: seq<Effect>, e: Effect)
    requires k < |finished| && Matched(finished[..k], effects)
    requires Same(finished[k].job, e.job) && e.status == Public(finished[k].status)
    ensures Matched(finished[..k + 1], effects + [e])
  {
    MatchedGrow(finished[..k], effects, finished[k], e);
    assert finished[..k] + [finished[k]] == finished[..k + 1];
  }

  lemma FinishedInOrder(g: Q.Log, k: nat)
    requires Q.InOrder(g) && k < |g.finished|
    ensures k < |g.accepted| && g.finished[k].job == g.accepted[k]
  {
  }

  lemma AnyConnection(s: R.State, connected: bool)
    requires R.Sound(s)
    ensures R.Sound(s.(connected := connected))
  {
  }

  /** The window can be closed now. */
  predicate Closable(s: R.State, handle: nat)
    requires |s.surfaces| == R.MAX_SURFACES
  {
    var i := R.Find(s.surfaces, handle);
    i.Some? && !s.surfaces[i.value].readbackPending && !s.surfaces[i.value].acquired && R.RoomIn(s) == R.Ok
  }

  /** Both sides at one moment. */
  datatype Snap = Snap(wire: Q.Shot, table: R.State)

  /** The job was queued on both sides, or nothing happened. */
  ghost predicate Took(a: Snap, j: Q.Job, taken: bool, b: Snap) {
    if !taken then b == a
    else
      && b.wire == a.wire.(count := a.wire.count + 1, log := a.wire.log.(accepted := a.wire.log.accepted + [j]))
      && |b.table.jobs| == |a.table.jobs| + 1 && b.table.jobs[..|a.table.jobs|] == a.table.jobs
      && Same(j, b.table.jobs[|a.table.jobs|]) && b.table.completions == a.table.completions
  }

  /** The wire was pumped, and what finished took effect and was announced. */
  ghost predicate Worked(a: Snap, now: seq<Effect>, b: Snap) {
    && |a.table.surfaces| == R.MAX_SURFACES && Q.Continues(a.wire.log, b.wire.log)
    && |now| == |b.wire.log.finished| - |a.wire.log.finished| && |now| <= |a.table.jobs|
    && b.table.jobs == a.table.jobs[|now|..] && R.OnlyFlags(a.table.surfaces, b.table.surfaces)
    && b.table.completions == a.table.completions + Announced(a.table.surfaces, now)
  }

  class Client {
    const queue: Q.Queue
    const runtime: R.Runtime
    ghost var effects: seq<Effect>

    ghost function Now(): Snap
      reads this, queue, runtime
    {
      Snap(queue.Picture(), runtime.Now())
    }

    /** The two sides hold the same jobs in the same order, and every finished one took effect. */
    ghost predicate Valid()
      reads this, queue, queue.jobs, runtime
    {
      && queue.Valid() && runtime.Valid() && queue.connected == runtime.connected
      && AllSame(queue.log.accepted[|queue.log.finished|..], runtime.jobs)
      && Matched(queue.log.finished, effects)
    }

    constructor (encode: Q.Encoder, headerSize: nat, version: nat)
      requires headerSize > 0 && forall h: Q.Header :: |encode(h)| == headerSize
      ensures Valid() && fresh(queue) && fresh(queue.jobs) && fresh(runtime) && effects == []
      ensures queue.log.accepted == [] && runtime.Now() == R.EMPTY
    {
      queue := new Q.Queue(encode, headerSize, version);
      runtime := new R.Runtime();
      effects := [];
    }

    /** Puts a job that the window table has just queued on the wire side; there is room for it. */
    method Enqueue(j: Q.Job, ghost before: R.State)
      requires queue.Valid() && runtime.Valid() && queue.connected == runtime.connected && Fits(j)
      requires R.RoomIn(before) == R.Ok && before.connected == runtime.connected && runtime.jobs != []
      requires before.jobs == runtime.jobs[..|runtime.jobs| - 1] && Same(j, runtime.jobs[|runtime.jobs| - 1])
      requires AllSame(queue.log.accepted[|queue.log.finished|..], before.jobs) && Matched(queue.log.finished, effects)
      requires runtime.completions == before.completions
      modifies queue, queue.jobs
      ensures Valid() && Took(Snap(old(queue.Picture()), before), j, true, Now())
    {
      hide R.Sound, Q.Queue.Valid, Q.InOrder, Q.Conversation, Same, Matched, AllSame;
      queue.Faithfulness();
      SameGrow(queue.log.accepted[|queue.log.finished|..], before.jobs, j, runtime.jobs[|runtime.jobs| - 1]);
      ghost var log := queue.log;
      var result := queue.Enqueue(j, true);
      assert queue.log.accepted[|log.finished|..] == log.accepted[|log.finished|..] + [j];
      assert runtime.jobs == before.jobs + [runtime.jobs[|runtime.jobs| - 1]];
    }

    /** A present, a query, an input poll or a plain setter: queued on both sides or on neither. */
    method Submit(j: Q.Job) returns (result: R.Status)
      requires Valid() && Fits(j) && j.kind != Resize && j.kind != Readback
      modifies queue, queue.jobs, runtime
      ensures Valid() && |old(runtime.surfaces)| == R.MAX_SURFACES
      ensures result == R.SendAnswer(old(runtime.Now()), j.handle, j.kind)
      ensures Took(old(Now()), j, result == R.Ok, Now())
    {
      hide R.Sound, Q.Queue.Valid, Matched, AllSame;
      R.TableSize(runtime.Now());
      ghost var before := runtime.Now();
      result := runtime.Submit(j.handle, j.kind, j.cookie);
      if result == R.Ok { Enqueue(j, before); }
    }

    method SubmitReadback(j: Q.Job) returns (result: R.Status)
      requires Valid() && Fits(j) && j.kind == Readback
      modifies queue, queue.jobs, runtime
      ensures Valid() && |old(runtime.surfaces)| == R.MAX_SURFACES
      ensures result == R.ReadbackAnswer(old(runtime.Now()), j.handle)
      ensures Took(old(Now()), j, result == R.Ok, Now())
    {
      hide R.Sound, Q.Queue.Valid, Matched, AllSame;
      R.TableSize(runtime.Now());
      ghost var before := runtime.Now();
      result := runtime.SubmitReadback(j.handle, j.cookie);
      if result == R.Ok { Enqueue(j, before); }
    }

    method ResizeWindow(j: Q.Job, memory: nat) returns (result: R.Status)
      requires Valid() && Fits(j) && j.kind == Resize && j.cookie == 0
      modifies queue, queue.jobs, runtime
      ensures Valid() && Took(old(Now()), j, result == R.Ok, Now())
      ensures R.ResizeTried(old(runtime.Now()), j.handle, memory, result, runtime.Now())
    {
      hide R.Sound, Q.Queue.Valid, Matched, AllSame;
      R.TableSize(runtime.Now());
      ghost var before := runtime.Now();
      result := runtime.ResizeSurface(j.handle, memory);
      if result == R.Ok { Enqueue(j, before); }
    }

    /** A lost connection is opened again. */
    method Reconnect(version: nat)
      requires Valid()
      modifies queue, runtime
      ensures Valid() && Now().table == old(Now()).table.(connected := true)
      ensures Now().wire == if old(queue.connected) then old(Now()).wire else
        old(Now()).wire.(connected := true, version := version,
          log := Q.Log(old(queue.log).accepted, old(queue.log).finished, |old(queue.log).finished|, [], [], []))
    {
      hide R.Sound, Q.Queue.Valid, Matched, AllSame;
      if !queue.connected {
        queue.Connect(version);
        AnyConnection(runtime.Now(), true);
        runtime.connected := true;
      }
    }

    method CloseWindow(j: Q.Job) returns (result: R.Status)
      requires Valid() && Fits(j) && j.kind == Plain && j.cookie == 0
      modifies queue, queue.jobs, runtime
      ensures Valid()
      ensures Took(old(Now()), j, result == R.Ok, Now())
      ensures |old(runtime.surfaces)| == R.MAX_SURFACES
      ensures result == R.Ok <==> Closable(old(runtime.Now()), j.handle)
      ensures result == R.Ok ==>
        runtime.surfaces == old(runtime.surfaces)[R.Find(old(runtime.surfaces), j.handle).value := R.NO_SURFACE]
    {
      hide R.Sound, Q.Queue.Valid, Matched, AllSame;
      R.TableSize(runtime.Now());
      ghost var before := runtime.Now();
      result := runtime.CloseAsync(j.handle);
      if result == R.Ok { Enqueue(j, before); }
    }

    /** The oldest job of the window table takes effect. */
    method TakeEffect(status: R.Status, ghost start: seq<R.Surface>) returns (ghost e: Effect)
      requires runtime.Valid() && runtime.jobs != [] && |start| == R.MAX_SURFACES &&
        R.OnlyFlags(start, runtime.surfaces)
      modifies runtime, this`effects
      ensures runtime.Valid() && runtime.jobs == old(runtime.jobs)[1..] && R.OnlyFlags(start, runtime.surfaces)
      ensures e.job == old(runtime.jobs)[0] && e.status == status && effects == old(effects) + [e]
      ensures runtime.completions ==
        old(runtime.completions) + R.Report(start, e.job, R.Final(e.job, e.status, e.intact))
      ensures runtime.connected == old(runtime.connected)
    {
      hide R.Sound, R.Report;
      var intact: bool := *;
      ghost var before, job := runtime.surfaces, runtime.jobs[0];
      R.SameReport(start, before, job, R.Final(job, status, intact));
      runtime.CompleteHead(status, intact);
      R.StillSame(start, before, runtime.surfaces);
      e := Effect(job, status, intact);
      effects := effects + [e];
    }

    /** Pumps the wire; every job that finishes takes effect at once and is reported. */
    method Pump(patient: bool, clock: bool, answers: seq<Q.Answer>)
      returns (result: int, used: nat, ghost marks: seq<Q.Mark>, ghost now: seq<Effect>)
      requires Valid()
      modifies this, queue, queue.jobs, runtime
      ensures Valid() && effects == old(effects) + now && (result >= 0 ==> result == |now|)
      ensures Q.Pumped(queue.headerSize, old(queue.Picture()), patient, clock, answers, result, used, marks,
        queue.Picture())
      ensures Worked(old(Now()), now, Now())
    {
      hide R.Sound, R.OnlyFlags, R.Report, Q.Pumped, Q.Queue.Valid, Q.InOrder, Q.Conversation, Same, Public, Matched,
        AllSame, Announced;
      R.TableSize(runtime.Now());
      R.NobodyChanged(runtime.surfaces);
      NothingAnnounced(runtime.surfaces);
      queue.Faithfulness();
      var k := |queue.done|;
      ghost var first, log := k, queue.log;
      now := [];
      result, used, marks := queue.Pump(patient, clock, answers);
      queue.Faithfulness();
      ghost var after, picture := queue.log, queue.Picture();
      assert after.finished[..k] == log.finished;
      while k < |queue.done|
        invariant first <= k <= |queue.done| && queue.Valid() && runtime.Valid() &&
          runtime.connected == old(runtime.connected)
        invariant queue.Picture() == picture && queue.log == after && queue.done == queue.log.finished &&
          Q.InOrder(queue.log)
        invariant AllSame(queue.log.accepted[k..], runtime.jobs) && Matched(queue.log.finished[..k], effects)
        invariant R.OnlyFlags(old(runtime.surfaces), runtime.surfaces)
        invariant effects == old(effects) + now && |now| == k - first <= |old(runtime.jobs)|
        invariant runtime.jobs == old(runtime.jobs)[|now|..]
        invariant runtime.completions == old(runtime.completions) + Announced(old(runtime.surfaces), now)
      {
        FinishedInOrder(queue.log, k);
        SameShrinkAt(queue.log.accepted, k, runtime.jobs);
        ghost var effect := TakeEffect(Public(queue.done[k].status), old(runtime.surfaces));
        MatchedGrowAt(queue.log.finished, k, old(effects) + now, effect);
        AnnouncedGrow(old(runtime.surfaces), now, effect);
        now := now + [effect];
        k := k + 1;
      }
      assert queue.log.finished[..k] == queue.log.finished;
      ghost var last := runtime.Now();
      runtime.connected := queue.connected;
      AnyConnection(last, queue.connected);
    }
  }
  datatype Command =
    | Open(memory: nat, attached: bool)
    | Send(job: Q.Job, memory: nat)
    | Shut(job: Q.Job)
    | Move(patient: bool, clock: bool, answers: seq<Q.Answer>)
    | Reopen(version: nat)
    | Set(handle: nat, lease: bool, callback: bool)
    | Deliver(maximum: nat)

  datatype Outcome =
    | Opened(handle: Option<nat>)
    | Answered(status: R.Status)
    | Ran(result: int, used: nat, marks: seq<Q.Mark>, now: seq<Effect>)
    | Told(told: seq<R.Completion>)
    | Done

  /** A job that one of the calls would make. */
  predicate WellFormed(c: Command) {
    && (c.Send? ==> Fits(c.job) && (c.job.kind == Resize ==> c.job.cookie == 0))
    && (c.Shut? ==> Fits(c.job) && c.job.kind == Plain && c.job.cookie == 0)
  }

  /** What each command does, by the state it meets. */
  ghost predicate Step(headerSize: nat, a: Snap, c: Command, o: Outcome, b: Snap) {
    && |a.table.surfaces| == R.MAX_SURFACES
    && match c
       case Open(memory, attached) =>
         o.Opened? && b.wire == a.wire && R.Created(a.table, memory, attached, o.handle, b.table)
       case Send(j, memory) =>
         && o.Answered? && Took(a, j, o.status == R.Ok, b)
         && (if j.kind == Resize then R.ResizeTried(a.table, j.handle, memory, o.status, b.table)
             else if j.kind == Readback then o.status == R.ReadbackAnswer(a.table, j.handle)
             else o.status == R.SendAnswer(a.table, j.handle, j.kind))
       case Shut(j) =>
         && o.Answered? && Took(a, j, o.status == R.Ok, b) && (o.status == R.Ok <==> Closable(a.table, j.handle))
         && (o.status == R.Ok ==>
               b.table.surfaces == a.table.surfaces[R.Find(a.table.surfaces, j.handle).value := R.NO_SURFACE])
       case Move(patient, clock, answers) =>
         && o.Ran? && Worked(a, o.now, b)
         && Q.Pumped(headerSize, a.wire, patient, clock, answers, o.result, o.used, o.marks, b.wire)
       case Reopen(version) =>
         && b.table == a.table.(connected := true)
         && b.wire == if a.wire.connected then a.wire else a.wire.(connected := true, version := version,
              log := Q.Log(a.wire.log.accepted, a.wire.log.finished, |a.wire.log.finished|, [], [], []))
       case Set(handle, lease, callback) =>
         b.wire == a.wire && R.Transition(a.table, R.Set(handle, lease, callback), R.Done, b.table)
       case Deliver(maximum) =>
         o.Told? && b.wire == a.wire && R.Transition(a.table, R.Deliver(maximum), R.Told(o.told), b.table)
  }

  method SendJob(client: Client, j: Q.Job, memory: nat) returns (status: R.Status)
    requires client.Valid() && WellFormed(Send(j, memory))
    modifies client.queue, client.queue.jobs, client.runtime
    ensures client.Valid()
    ensures Step(client.queue.headerSize, old(client.Now()), Send(j, memory), Answered(status), client.Now())
  {
    hide Client.Valid, Took, R.ResizeTried, R.RoomIn, R.Find;
    Sizes(client);
    if j.kind == Resize {
      status := client.ResizeWindow(j, memory);
    } else if j.kind == Readback {
      status := client.SubmitReadback(j);
    } else {
      status := client.Submit(j);
    }
  }

  lemma Sizes(client: Client)
    requires client.Valid()
    ensures |client.runtime.surfaces| == R.MAX_SURFACES
  {
  }

  method Obey(client: Client, command: Command) returns (ghost outcome: Outcome)
    requires client.Valid() && WellFormed(command)
    modifies client, client.queue, client.queue.jobs, client.runtime
    ensures client.Valid() && old(client.effects) <= client.effects
    ensures Step(client.queue.headerSize, old(client.Now()), command, outcome, client.Now())
  {
    hide R.Sound, Q.Queue.Valid, Matched, AllSame, Announced, R.Created, Q.Pumped, Worked, Took, R.HeardOnes, R.RoomIn,
      R.Decode;
    Sizes(client);
    outcome := Done;
    match command {
      case Open(memory, attached) => {
        var handle := client.runtime.Create(memory, attached);
        CreatedElsewhere(old(client.runtime.Now()), memory, attached, handle, client.runtime.Now());
        outcome := Opened(handle);
      }
      case Send(j, memory) => {
        var status := SendJob(client, j, memory);
        outcome := Answered(status);
      }
      case Shut(j) => {
        var status := client.CloseWindow(j);
        outcome := Answered(status);
      }
      case Move(patient, clock, answers) => {
        var result, used;
        ghost var marks, now;
        result, used, marks, now := client.Pump(patient, clock, answers);
        outcome := Ran(result, used, marks, now);
      }
      case Reopen(version) => { client.Reconnect(version); }
      case Set(handle, lease, callback) => { var found := client.runtime.Touch(handle, lease, callback); }
      case Deliver(maximum) => {
        var told := client.runtime.Dispatch(maximum);
        outcome := Told(told);
      }
    }
  }

  lemma CreatedElsewhere(before: R.State, memory: nat, attached: bool, handle: Option<nat>, after: R.State)
    requires R.Created(before, memory, attached, handle, after)
    ensures after.jobs == before.jobs && after.connected == before.connected
  {
  }

  ghost predicate History(headerSize: nat, snaps: seq<Snap>, script: seq<Command>, outcomes: seq<Outcome>) {
    && |snaps| == |script| + 1 && |outcomes| == |script|
    && forall i :: 0 <= i < |script| ==> Step(headerSize, snaps[i], script[i], outcomes[i], snaps[i + 1])
  }

  lemma HistoryGrows(headerSize: nat, snaps: seq<Snap>, script: seq<Command>, outcomes: seq<Outcome>, c: Command,
      o: Outcome, next: Snap)
    requires History(headerSize, snaps, script, outcomes) && Step(headerSize, snaps[|script|], c, o, next)
    ensures History(headerSize, snaps + [next], script + [c], outcomes + [o])
  {
    hide Step;
  }

  /** Over every run of the client, each command does what it says, and each job that was taken is either
      still queued, on both sides at the same place, or has finished on the wire and taken effect in
      the window table exactly once, in order and with the status it finished with. */
  method Run(client: Client, script: seq<Command>) returns (ghost snaps: seq<Snap>, ghost outcomes: seq<Outcome>)
    requires client.Valid()
    requires forall i :: 0 <= i < |script| ==> WellFormed(script[i])
    modifies client, client.queue, client.queue.jobs, client.runtime
    ensures History(client.queue.headerSize, snaps, script, outcomes)
    ensures snaps[0] == old(client.Now()) && snaps[|script|] == client.Now()
    ensures client.Valid() && Matched(client.queue.log.finished, client.effects)
    ensures |client.effects| <= |client.queue.log.accepted| && old(client.effects) <= client.effects
    ensures AllSame(client.queue.log.accepted[|client.effects|..], client.runtime.jobs)
  {
    hide Client.Valid, WellFormed, Step;
    snaps, outcomes := [client.Now()], [];
    for i := 0 to |script|
      invariant client.Valid() && old(client.effects) <= client.effects && |snaps| == i + 1
      invariant History(client.queue.headerSize, snaps, script[..i], outcomes)
      invariant snaps[0] == old(client.Now()) && snaps[i] == client.Now()
    {
      ghost var outcome := Obey(client, script[i]);
      HistoryGrows(client.queue.headerSize, snaps, script[..i], outcomes, script[i], outcome, client.Now());
      assert script[..i + 1] == script[..i] + [script[i]];
      snaps, outcomes := snaps + [client.Now()], outcomes + [outcome];
    }
    assert script[..|script|] == script;
    TwoSides(client);
  }

  lemma TwoSides(client: Client)
    requires client.Valid()
    ensures Matched(client.queue.log.finished, client.effects) && |client.effects| <= |client.queue.log.accepted|
    ensures AllSame(client.queue.log.accepted[|client.effects|..], client.runtime.jobs)
  {
  }
}
