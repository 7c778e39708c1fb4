/** The interface identity: a name and an index that any number of publishers, revokers and readers
    share through a sequence lock. Every load, store and compare-and-swap is one step. */
module NetifIdentity {

  const SEQUENCE_MAX: nat := 0xffff_ffff
  const INDEX_MAX: nat := 0xffff

  type Name = seq<bv8>

  /** The shared fields. */
  datatype Shared = Shared(sequence: nat, retired: bool, ready: bool, generation: nat, name: Name)

  datatype Job = Publish(name: Name) | Revoke

  datatype Outcome =
    | Published(index: nat) | RevokedNow | RetiredNow | Busy
    | Snapshot(name: Name, index: nat) | Unavailable

  /** Where a thread stands. A writer holds the sequence number it entered with; a reader holds what
      it has loaded in this attempt. */
  datatype Thread =
    | Idle
    | Begin(job: Job)
    | Swap(job: Job, entered: nat)
    | Enter(job: Job, entered: nat)
    | Judge(job: Job, entered: nat, was: nat)
    | Clear(job: Job, entered: nat, was: nat, retiring: bool)
    | Retire(entered: nat)
    | Fill(job: Job, entered: nat, was: nat, done: nat)
    | Stamp(job: Job, entered: nat, was: nat)
    | Raise(job: Job, entered: nat, index: nat)
    | Leave(entered: nat, outcome: Outcome)
    | Before(attempt: nat)
    | LoadReady(attempt: nat, before: nat)
    | LoadGeneration(attempt: nat, before: nat, ready: bool)
    | LoadName(attempt: nat, before: nat, ready: bool, index: nat, got: Name)
    | Finished(outcome: Outcome)

  /** The threads, the fields they share, and the name that was published under each index. */
  datatype System = System(shared: Shared, threads: seq<Thread>, log: map<nat, Name>)

  function Initial(n: nat, name: Name): System {
    System(Shared(0, false, false, 0, name), seq(n, _ => Idle), map[])
  }

  /** A thread that is between calls may start one. */
  predicate MayStart(from: Thread, to: Thread, length: nat) {
    && (from.Idle? || from.Finished?)
    && (to == Before(0) || (to.Begin? && (to.job.Publish? ==> |to.job.name| == length)))
  }

  /** What the code of a step takes for granted about its own progress. */
  predicate InRange(s: Shared, t: Thread) {
    && (t.Fill? ==> t.done < |s.name| && t.job.Publish? && |t.job.name| == |s.name|)
    && (t.Raise? ==> t.job.Publish?)
    && (t.LoadName? ==> |t.got| <= |s.name|)
  }

  /** The next step of a thread inside a call. */
  function Step(s: Shared, t: Thread): (Shared, Thread)
    requires InRange(s, t)
  {
    match t
    case Begin(job) =>
      if s.sequence % 2 != 0 || s.sequence > SEQUENCE_MAX - 2 then (s, Finished(Busy)) else (s, Swap(job, s.sequence))
    case Swap(job, entered) =>
      if s.sequence == entered then (s.(sequence := entered + 1), Enter(job, entered)) else (s, Finished(Busy))
    case Enter(job, entered) =>
      if job.Revoke? then (s.(ready := false), Leave(entered, RevokedNow)) else (s, Judge(job, entered, s.generation))
    case Judge(job, entered, was) => (s, Clear(job, entered, was, s.retired || was == INDEX_MAX))
    case Clear(job, entered, was, retiring) =>
      (s.(ready := false), if retiring then Retire(entered) else Fill(job, entered, was, 0))
    case Retire(entered) => (s.(retired := true), Leave(entered, RetiredNow))
    case Fill(job, entered, was, done) =>
      (s.(name := s.name[done := job.name[done]]),
       if done + 1 == |s.name| then Stamp(job, entered, was) else Fill(job, entered, was, done + 1))
    case Stamp(job, entered, was) => (s.(generation := was + 1), Raise(job, entered, was + 1))
    case Raise(job, entered, index) => (s.(ready := true), Leave(entered, Published(index)))
    case Leave(entered, outcome) => (s.(sequence := entered + 2), Finished(outcome))
    case Before(attempt) =>
      if attempt >= 4 then (s, Finished(Busy))
      else if s.sequence % 2 != 0 then (s, Before(attempt + 1))
      else (s, LoadReady(attempt, s.sequence))
    case LoadReady(attempt, before) => (s, LoadGeneration(attempt, before, s.ready))
    case LoadGeneration(attempt, before, ready) => (s, LoadName(attempt, before, ready, s.generation, []))
    case LoadName(attempt, before, ready, index, got) =>
      if |got| < |s.name| then (s, LoadName(attempt, before, ready, index, got + [s.name[|got|]]))
      else if s.sequence != before then (s, Before(attempt + 1))
      else if !ready || index == 0 then (s, Finished(Unavailable))
      else (s, Finished(Snapshot(got, index)))
    case _ => (s, t)
  }

  /** One step of thread `k`: it starts a call or goes on with one. Raising the flag publishes. */
  predicate Next(a: System, b: System, k: nat) {
    && k < |a.threads| == |b.threads| && b.threads == a.threads[k := b.threads[k]]
    && var t := a.threads[k];
       if t.Idle? || t.Finished? then
         MayStart(t, b.threads[k], |a.shared.name|) && b.shared == a.shared && b.log == a.log
       else
         && InRange(a.shared, t) && (b.shared, b.threads[k]) == Step(a.shared, t)
         && b.log == if t.Raise? then a.log[t.index := t.job.name] else a.log
  }

  // The invariant.

  predicate Writing(t: Thread) {
    t.Enter? || t.Judge? || t.Clear? || t.Retire? || t.Fill? || t.Stamp? || t.Raise? || t.Leave?
  }

  /** A writer inside knows the state it works on; a reader whose sequence number is still the
      current one has loaded what is there now; a finished call told the truth. */
  predicate ThreadOk(s: Shared, log: map<nat, Name>, t: Thread) {
    match t
    case Idle => true
    case Begin(job) => job.Publish? ==> |job.name| == |s.name|
    case Swap(job, entered) =>
      entered % 2 == 0 && entered + 2 <= SEQUENCE_MAX && (job.Publish? ==> |job.name| == |s.name|)
    case Enter(job, entered) => Holds(s, entered) && (job.Publish? ==> |job.name| == |s.name|)
    case Judge(job, entered, was) =>
      Holds(s, entered) && job.Publish? && |job.name| == |s.name| && was == s.generation
    case Clear(job, entered, was, retiring) =>
      && Holds(s, entered) && job.Publish? && |job.name| == |s.name| && was == s.generation
      && (!retiring ==> was < INDEX_MAX)
    case Retire(entered) => Holds(s, entered)
    case Fill(job, entered, was, done) =>
      && Holds(s, entered) && !s.ready && job.Publish? && |job.name| == |s.name| && was == s.generation < INDEX_MAX
      && done < |s.name| && s.name[..done] == job.name[..done]
    case Stamp(job, entered, was) =>
      Holds(s, entered) && !s.ready && job == Publish(s.name) && was == s.generation < INDEX_MAX
    case Raise(job, entered, index) =>
      Holds(s, entered) && !s.ready && job == Publish(s.name) && 0 < index == s.generation && index !in log
    case Leave(entered, outcome) => Holds(s, entered) && OutcomeOk(log, outcome)
    case Before(attempt) => true
    case LoadReady(attempt, before) => before % 2 == 0 && before <= s.sequence
    case LoadGeneration(attempt, before, ready) =>
      before % 2 == 0 && before <= s.sequence && (before == s.sequence ==> ready == s.ready)
    case LoadName(attempt, before, ready, index, got) =>
      && before % 2 == 0 && before <= s.sequence && |got| <= |s.name|
      && (before == s.sequence ==> ready == s.ready && index == s.generation && got == s.name[..|got|])
    case Finished(outcome) => OutcomeOk(log, outcome)
  }

  predicate Holds(s: Shared, entered: nat) {
    entered % 2 == 0 && s.sequence == entered + 1 && entered + 2 <= SEQUENCE_MAX
  }

  predicate OutcomeOk(log: map<nat, Name>, outcome: Outcome) {
    && (outcome.Published? ==> outcome.index in log)
    && (outcome.Snapshot? ==> outcome.index in log && log[outcome.index] == outcome.name)
  }

  /** The shared fields agree with the log, and the log stays within the generations handed out. */
  predicate SharedOk(s: Shared, log: map<nat, Name>) {
    && s.sequence <= SEQUENCE_MAX && s.generation <= INDEX_MAX && |s.name| > 0
    && (s.ready ==> s.generation in log && log[s.generation] == s.name)
    && (forall i :: i in log ==> 1 <= i <= s.generation)
  }

  ghost predicate Inv(y: System) {
    && SharedOk(y.shared, y.log)
    && (forall k :: 0 <= k < |y.threads| ==> ThreadOk(y.shared, y.log, y.threads[k]))
    && (forall j, k :: 0 <= j < k < |y.threads| ==> !(Writing(y.threads[j]) && Writing(y.threads[k])))
  }

  lemma InitialInv(n: nat, name: Name)
    requires |name| > 0
    ensures Inv(Initial(n, name))
  {
  }

  /** The shared fields; and the log only grows. */
  lemma SharedStep(a: System, b: System, k: nat)
    requires Inv(a) && Next(a, b, k)
    ensures SharedOk(b.shared, b.log)
    ensures forall i :: i in a.log ==> i in b.log && b.log[i] == a.log[i]
  {
    assert ThreadOk(a.shared, a.log, a.threads[k]);
  }

  /** A step of a writer that is inside. */
  lemma WriterStep(s: Shared, log: map<nat, Name>, t: Thread)
    requires SharedOk(s, log) && ThreadOk(s, log, t) && InRange(s, t) && Writing(t)
    ensures
      var log' := if t.Raise? then log[t.index := t.job.name] else log;
      ThreadOk(Step(s, t).0, log', Step(s, t).1)
  {
    if t.Fill? {
      var s' := Step(s, t).0;
      assert s'.name[..t.done + 1] == s.name[..t.done] + [t.job.name[t.done]] == t.job.name[..t.done + 1];
      assert t.done + 1 == |s.name| ==> s'.name[..t.done + 1] == s'.name && t.job.name[..t.done + 1] == t.job.name;
    }
  }

  /** A step of a reader, or of a writer on its way in. */
  lemma OutsideStep(s: Shared, log: map<nat, Name>, t: Thread)
    requires SharedOk(s, log) && ThreadOk(s, log, t) && InRange(s, t) && !Writing(t)
    ensures ThreadOk(Step(s, t).0, log, Step(s, t).1)
  {
    if t.LoadName? && |t.got| == |s.name| {
      assert s.name[..|t.got|] == s.name;
    }
  }

  /** The stepping thread. */
  lemma OwnStep(a: System, b: System, k: nat)
    requires Inv(a) && Next(a, b, k)
    ensures ThreadOk(b.shared, b.log, b.threads[k])
  {
    var t := a.threads[k];
    assert ThreadOk(a.shared, a.log, t);
    hide ThreadOk, Step, SharedOk;
    if t.Idle? || t.Finished? {
      Started(a.shared, a.log, t, b.threads[k]);
    } else if Writing(t) {
      WriterStep(a.shared, a.log, t);
    } else {
      OutsideStep(a.shared, a.log, t);
    }
  }

  lemma Started(s: Shared, log: map<nat, Name>, t: Thread, u: Thread)
    requires MayStart(t, u, |s.name|)
    ensures ThreadOk(s, log, u)
  {
  }

  /** Any other thread. */
  lemma OtherStep(a: System, b: System, k: nat, j: nat)
    requires Inv(a) && Next(a, b, k) && j < |a.threads| && j != k
    ensures ThreadOk(b.shared, b.log, b.threads[j])
    ensures Writing(b.threads[k]) ==> !Writing(b.threads[j])
  {
    assert ThreadOk(a.shared, a.log, a.threads[k]) && ThreadOk(a.shared, a.log, a.threads[j]);
    SharedStep(a, b, k);
    assert !(Writing(a.threads[j]) && Writing(a.threads[k]));
  }

  lemma InvStep(a: System, b: System, k: nat)
    requires Inv(a) && Next(a, b, k)
    ensures Inv(b)
  {
    OwnStep(a, b, k);
    SharedStep(a, b, k);
    forall j | 0 <= j < |b.threads| && j != k
      ensures ThreadOk(b.shared, b.log, b.threads[j]) && (Writing(b.threads[k]) ==> !Writing(b.threads[j]))
    {
      OtherStep(a, b, k, j);
    }
  }

  // Whole runs.

  /** A run: consecutive states are one step of some thread apart. */
  ghost predicate Run(run: seq<System>, who: seq<nat>) {
    && |run| == |who| + 1
    && (forall i :: 0 <= i < |who| ==> Next(run[i], run[i + 1], who[i]))
  }

  /** Every state of every run satisfies the invariant: in particular at most one writer is inside,
      and the sequence and index stay in range. */
  lemma {:induction false} RunInv(run: seq<System>, who: seq<nat>, i: nat)
    requires Run(run, who) && Inv(run[0]) && i < |run|
    ensures Inv(run[i])
  {
    hide Next, Inv;
    if i != 0 {
      RunInv(run, who, i - 1);
      InvStep(run[i - 1], run[i], who[i - 1]);
    }
  }

  /** Snapshots are never torn: over any run from the initial state, what a snapshot returned is
      exactly the name that was published under that index, and it stays so for the rest of the run. */
  lemma SnapshotIsPublished(run: seq<System>, who: seq<nat>, n: nat, name: Name, i: nat, k: nat)
    requires |name| > 0 && Run(run, who) && run[0] == Initial(n, name)
    requires i < |run| && k < |run[i].threads| && run[i].threads[k].Finished? && run[i].threads[k].outcome.Snapshot?
    ensures
      var seen := run[i].threads[k].outcome;
      1 <= seen.index <= INDEX_MAX && seen.index in run[i].log && run[i].log[seen.index] == seen.name
  {
    InitialInv(n, name);
    RunInv(run, who, i);
    assert ThreadOk(run[i].shared, run[i].log, run[i].threads[k]);
  }

  /** At the step in which a snapshot succeeds, it returns the identity that is current then. */
  lemma SnapshotIsCurrent(a: System, b: System, k: nat)
    requires Inv(a) && Next(a, b, k) && b.threads[k].Finished? && b.threads[k].outcome.Snapshot?
    requires !a.threads[k].Finished? && a.threads[k].LoadName?
    ensures a.shared.ready && b.threads[k].outcome == Snapshot(a.shared.name, a.shared.generation)
  {
    assert ThreadOk(a.shared, a.log, a.threads[k]);
  }

  /** The sequence never falls, and a change to the data it guards needs it to be odd, that is,
      held by the one writer inside. */
  lemma SequenceGuards(a: System, b: System, k: nat)
    requires Inv(a) && Next(a, b, k)
    ensures a.shared.sequence <= b.shared.sequence
    ensures b.shared.(sequence := a.shared.sequence) != a.shared ==> a.shared.sequence % 2 == 1 && Writing(a.threads[k])
    ensures b.log != a.log ==>
      exists i: nat :: i !in a.log && a.shared.generation <= i && b.log.Keys == a.log.Keys + {i}
  {
    assert ThreadOk(a.shared, a.log, a.threads[k]);
    if a.threads[k].Raise? {
      assert b.log.Keys == a.log.Keys + {a.threads[k].index};
    }
  }

  /** An index is given out once: later in the run it still names what it named. */
  lemma {:induction false} LogOnlyGrows(run: seq<System>, who: seq<nat>, i: nat, j: nat)
    requires Run(run, who) && Inv(run[0]) && i <= j < |run|
    ensures forall x :: x in run[i].log ==> x in run[j].log && run[j].log[x] == run[i].log[x]
    decreases j
  {
    hide Next, Inv;
    if i < j {
      LogOnlyGrows(run, who, i, j - 1);
      RunInv(run, who, j - 1);
      SharedStep(run[j - 1], run[j], who[j - 1]);
    }
  }

  /** Writers exclude each other in every state of every run, and no thread is ever stuck inside a
      call. */
  lemma WritersExclude(run: seq<System>, who: seq<nat>, n: nat, name: Name, i: nat, j: nat, k: nat)
    requires |name| > 0 && Run(run, who) && run[0] == Initial(n, name)
    requires i < |run| && j < k < |run[i].threads|
    ensures !(Writing(run[i].threads[j]) && Writing(run[i].threads[k]))
    ensures InRange(run[i].shared, run[i].threads[j]) && InRange(run[i].shared, run[i].threads[k])
    ensures run[i].shared.sequence <= SEQUENCE_MAX && run[i].shared.generation <= INDEX_MAX
  {
    InitialInv(n, name);
    RunInv(run, who, i);
    assert ThreadOk(run[i].shared, run[i].log, run[i].threads[j]) &&
      ThreadOk(run[i].shared, run[i].log, run[i].threads[k]);
  }
}
