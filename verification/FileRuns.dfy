/** The theorems about whole runs: starting, pumping, crashing anywhere, recovering, undoing. */
module FileRuns {
  import opened Common
  import opened Namespaces
  import opened UndoSpec
  import opened ForwardSpec
  import opened FileBackend
  import opened FileOperations
  import opened FileRecovery
  import opened FileCopy
  import opened CopyStream
  import opened CopyRun
  import opened FileUndo
  import opened FileMove
  import opened Whereabouts

  // Starting.

  predicate StartableEntry(kind: OperationKind, plan: seq<Entry>, j: nat)
    requires j < |plan|
  {
    var e := plan[j];
    && SavableEntry(e) && !e.created && !e.applied && e.cleanup.CleanupNone? && e.replacement.NotReplacing?
    && e.objectId.device == 0 && e.objectId.inode == 0 && e.objectId.generation == 0
    && (kind.Copy? && e.task.kind.Directory? ==> !(e.task.source <= e.task.dest))
    && (kind.Copy? && e.task.kind.Hardlink? ==>
          && e.task.linkSource < j
          && (plan[e.task.linkSource].task.kind.File? || plan[e.task.linkSource].task.kind.Hardlink?))
  }

  ghost predicate Startable(kind: OperationKind, policy: Policy, plan: seq<Entry>, limit: nat) {
    && 0 < |plan| <= limit && !(policy.ConflictReplace? && !kind.Copy?)
    && (forall j :: 0 <= j < |plan| ==> StartableEntry(kind, plan, j))
    && (kind.Copy? ==> FileBytes(plan, |plan|) <= U64_MAX)
  }

  function StartedEntry(e: Entry): Entry {
    e.(skip := false, cleanup := CleanupNone, objectId := NO_IDENTITY)
  }

  function StartedRecord(kind: OperationKind, policy: Policy, plan: seq<Entry>): Record {
    Record(
      Header(kind, policy, OK, true, false, false, false, 0, |plan|),
      false, [], NO_IDENTITY, CleanupNone,
      seq(|plan|, j requires 0 <= j < |plan| => StartedEntry(plan[j])))
  }

  /** Checks the plan and sets the operation up; it starts exactly when the plan is startable. */
  method Start(kind: OperationKind, policy: Policy, plan: seq<Entry>, limit: nat) returns (res: Result, r: Record)
    ensures res == InProgress <==> Startable(kind, policy, plan, limit)
    ensures res == InProgress ==> r == StartedRecord(kind, policy, plan)
  {
    r := StartedRecord(kind, policy, plan);
    if plan == [] || |plan| > limit { return InvalidArgument, r; }
    if policy.ConflictReplace? && !kind.Copy? { return Unsupported, r; }
    var total := 0;
    for j := 0 to |plan|
      invariant forall k :: 0 <= k < j ==> StartableEntry(kind, plan, k)
      invariant kind.Copy? ==> total == FileBytes(plan, j) <= U64_MAX
    {
      var e := plan[j];
      if !SavableEntry(e) || e.created || e.applied || !e.cleanup.CleanupNone? || !e.replacement.NotReplacing? ||
         e.objectId.device != 0 || e.objectId.inode != 0 || e.objectId.generation != 0 {
        assert !StartableEntry(kind, plan, j);
        return InvalidArgument, r;
      }
      if kind.Copy? && e.task.kind.Directory? && e.task.source <= e.task.dest {
        assert !StartableEntry(kind, plan, j);
        return Conflicted, r;
      }
      if kind.Copy? && e.task.kind.File? {
        if U64_MAX - total < e.task.size {
          FileBytesGrow(plan, j + 1, |plan|);
          return InvalidArgument, r;
        }
        total := total + e.task.size;
      }
      if kind.Copy? && e.task.kind.Hardlink? {
        if e.task.linkSource >= j ||
           !(plan[e.task.linkSource].task.kind.File? || plan[e.task.linkSource].task.kind.Hardlink?) {
          assert !StartableEntry(kind, plan, j);
          return InvalidArgument, r;
        }
      }
    }
    res := InProgress;
  }

  /** Rolling back the plan is exact: it replaces nothing, or nothing but files. */
  ghost predicate ExactPlan(policy: Policy, plan: seq<Entry>) {
    policy.ConflictReplace? ==> OnlyFiles(plan)
  }

  /** What is claimed of a copy's moments. */
  ghost function ClaimOf(policy: Policy, plan: seq<Entry>): Claim {
    if ExactPlan(policy, plan) then Exact else Loose
  }

  lemma StartedRestorable(kind: OperationKind, policy: Policy, plan: seq<Entry>, limit: nat)
    requires Startable(kind, policy, plan, limit)
    ensures Restorable(StartedRecord(kind, policy, plan)) && PristineFrom(StartedRecord(kind, policy, plan).entries, 0)
  {
    forall j | 0 <= j < |plan| ensures SavableEntry(StartedEntry(plan[j])) && Pristine(StartedEntry(plan[j])) {
      assert StartableEntry(kind, plan, j);
    }
  }

  /** The moment an operation starts. */
  function FirstInstant(ns: Namespace, kind: OperationKind, policy: Policy, plan: seq<Entry>): Instant {
    Instant(ns, StartedRecord(kind, policy, plan), {}, {}, 0)
  }

  /** A started operation leads back to where it started. */
  lemma Started(kind: OperationKind, ns: Namespace, policy: Policy, plan: seq<Entry>, limit: nat, claim: Claim,
      w: World)
    requires Closed(ns) && Startable(kind, policy, plan, limit)
    requires w.ns == ns && w.saved == StartedRecord(kind, policy, plan) && w.deeds == []
    requires w.history == [FirstInstant(ns, kind, policy, plan)]
    ensures Sane(FirstInstant(ns, kind, policy, plan))
    ensures
      var r := StartedRecord(kind, policy, plan);
      && SameTasks(plan, r.entries) && PristineFrom(r.entries, 0) && (Lawful(w) ==> Sound(w, r))
      && Follows(true, claim, Some(ns), w, r)
  {
    var r := StartedRecord(kind, policy, plan);
    StartedRestorable(kind, policy, plan, limit);
    forall j | 0 <= j < |plan| ensures Pristine(r.entries[j]) && SavableEntry(r.entries[j]) { }
    NothingLeft(ns, r);
  }

  /** A started copy satisfies everything the pumps keep. */
  lemma StartedCopy(ns: Namespace, policy: Policy, plan: seq<Entry>, limit: nat, w: World, stream: Stream)
    requires Startable(Copy, policy, plan, limit) && stream.completed == 0 && w.ns == ns
    requires PristineFrom(StartedRecord(Copy, policy, plan).entries, 0)
    ensures Running(StartedRecord(Copy, policy, plan), false, stream)
    ensures Forward(ClaimOf(policy, plan), ns, w, StartedRecord(Copy, policy, plan), false, stream)
  {
    FileBytesSame(plan, StartedRecord(Copy, policy, plan).entries, |plan|);
  }

  // Running a copy.

  datatype Phase = Going | RollingBack | Stuck | RolledBack | Copied

  predicate Undisturbed(h: Header) { !h.recoveryRequired && !h.rollbackActive && !h.undoActive }

  /** Where a run that started from `x` stands. */
  ghost predicate InPhase(x: Option<Namespace>, claim: Claim, quiet: bool, w: World, r: Record, fileOpen: bool,
                          stream: Stream, phase: Phase) {
    && (x.Some? ==> AllGood(claim, x.value, w.history))
    && match phase
       case Going =>
         && r.head.active && Undisturbed(r.head) && Running(r, fileOpen, stream)
         && Follows(quiet, claim, x, w, r) && (x.Some? ==> Forward(claim, x.value, w, r, fileOpen, stream))
       case RollingBack =>
         && r.head.active && r.head.rollbackActive
         && (x.Some? && !claim.Loose? ==> Follows(quiet, claim, x, w, r) && Rollable(r))
       case Stuck => !r.head.active && r.head.recoveryRequired
       case RolledBack => !r.head.active && !r.head.recoveryRequired && (x.Some? && !claim.Loose? ==> w.ns == x.value)
       case Copied =>
         && !r.head.active && Undisturbed(r.head) && !fileOpen && r.head.entryIndex == |r.entries| &&
              Running(r, fileOpen, stream)
         && Ended(quiet, claim, x, w, r) && (x.Some? ==> Forward(claim, x.value, w, r, fileOpen, stream))
  }

  /** One pump of a copy, forward or back. */
  method Pump(op: Operation, phase: Phase, ghost x: Option<Namespace>) returns (next: Phase)
    requires op.Well() && op.r.head.operation.Copy? && (phase.Going? || phase.RollingBack?)
    requires InPhase(x, op.claim, op.backend.quiet, op.backend.w, op.r, op.fileOpen, op.stream, phase)
    modifies op`r, op`sourceHandle, op`tempHandle, op`fileOpen, op`tempSequence, op`stream, op.backend`w
    ensures op.Well() && SameJob(old(op.r), op.r)
    ensures InPhase(x, op.claim, op.backend.quiet, op.backend.w, op.r, op.fileOpen, op.stream, next)
    ensures x.Some? && phase.Going? && old(Able(op)) ==>
      next.Copied? || (next.Going? && Left(op.r, op.fileOpen, op.stream) < old(Left(op.r, op.fileOpen, op.stream)))
    ensures x.Some? && (next.Going? || next.Copied?) ==>
      KeepsBacked(op.backend.proposal, old(op.r.entries), op.r.entries)
  {
    hide Sound, Running, Forward, Rollable, Good, Recover, Restorable, AllRoll, SameTasks, Able, Left, KeepsBacked;
    var res, step;
    if phase.Going? {
      res, step := PumpCopy(op, x);
    } else {
      res, step := PumpRollback(op, if op.claim.Loose? then None else x);
    }
    next := if step == -1 then Stuck else if step == 1 then RollingBack else if step == 0 then RolledBack
            else if res == InProgress then Going else Copied;
  }

  /** Starts a copy of a startable plan and pumps it, cancelling at any time. Whatever others do and
      however calls fail, it does them no harm. */
  method RunCopy(ns: Namespace, policy: Policy, plan: seq<Entry>, limit: nat, capacity: nat, quiet: bool,
                 reliable: bool, proposal: Proposal, pumps: nat) returns (op: Operation, phase: Phase, pumped: nat)
    requires Closed(ns) && Startable(Copy, policy, plan, limit)
    ensures fresh(op) && fresh(op.backend) && op.backend.quiet == quiet && op.backend.reliable == reliable
    ensures op.backend.start == FirstInstant(ns, Copy, policy, plan) && op.claim == ClaimOf(policy, plan)
    ensures op.Well() && SameJob(StartedRecord(Copy, policy, plan), op.r)
    ensures Harmless(op.backend.w.deeds, op.backend.w.made)
    ensures InPhase(if quiet then Some(ns) else None, op.claim, quiet, op.backend.w, op.r, op.fileOpen, op.stream,
      phase)
    ensures pumped == pumps || (pumped < pumps && !phase.Going? && !phase.RollingBack?)
  {
    hide Sound, InPhase, ExactPlan, Startable, Harmless, SameTasks;
    op := Begin(ns, policy, plan, limit, capacity, quiet, reliable, proposal);
    ghost var x := if quiet then Some(ns) else None;
    phase, pumped := Going, 0;
    while pumped < pumps && (phase.Going? || phase.RollingBack?)
      invariant fresh(op) && fresh(op.backend) && op.backend.quiet == quiet && op.backend.reliable == reliable
      invariant op.backend.start == FirstInstant(ns, Copy, policy, plan) && op.claim == ClaimOf(policy, plan)
      invariant pumped <= pumps
      invariant op.Well() && SameJob(StartedRecord(Copy, policy, plan), op.r)
      invariant InPhase(x, op.claim, quiet, op.backend.w, op.r, op.fileOpen, op.stream, phase)
    {
      ghost var r0 := op.r;
      var cancel: bool := *;
      if cancel { op.cancelRequested := true; }
      phase := Pump(op, phase, x);
      SameJobThrough(StartedRecord(Copy, policy, plan), r0, op.r);
      pumped := pumped + 1;
    }
    SoundIsHarmless(op.backend.w, op.r);
  }

  lemma SoundIsHarmless(w: World, r: Record)
    requires Sound(w, r)
    ensures Harmless(w.deeds, w.made)
  {
  }

  /** A copy that has just started. */
  method Begin(ns: Namespace, policy: Policy, plan: seq<Entry>, limit: nat, capacity: nat, quiet: bool, reliable: bool,
               proposal: Proposal) returns (op: Operation)
    requires Closed(ns) && Startable(Copy, policy, plan, limit)
    ensures fresh(op) && fresh(op.backend) && op.backend.quiet == quiet && op.backend.reliable == reliable
    ensures op.backend.start == FirstInstant(ns, Copy, policy, plan)
    ensures op.backend.proposal == proposal && op.claim == ClaimOf(policy, plan)
    ensures op.capacity == capacity && !op.cancelRequested
    ensures op.Well() && op.r == StartedRecord(Copy, policy, plan) && SameJob(op.r, op.r)
    ensures op.backend.w.ns == ns && op.backend.w.made == {}
    ensures InPhase(if quiet then Some(ns) else None, op.claim, quiet, op.backend.w, op.r, op.fileOpen, op.stream,
      Going)
  {
    var res, r := Start(Copy, policy, plan, limit);
    ghost var w0 := Begun(FirstInstant(ns, Copy, policy, plan), quiet);
    Started(Copy, ns, policy, plan, limit, ClaimOf(policy, plan), w0);
    var backend := new Backend(FirstInstant(ns, Copy, policy, plan), quiet, reliable, proposal);
    op := new Operation(backend, r, capacity, ClaimOf(policy, plan));
    StartedCopy(ns, policy, plan, limit, backend.w, op.stream);
  }

  /** Every moment of a run is one that a restart can start from, with a record made from the plan. */
  lemma HistoryPlanned(w: World, r: Record, plan: seq<Entry>, k: nat)
    requires Sound(w, r) && SameTasks(plan, r.entries) && k < |w.history|
    ensures Sane(w.history[k]) && SameTasks(plan, w.history[k].saved.entries) && SameJob(r, w.history[k].saved)
  {
    MomentIsSane(w, r, k);
    hide Sound, Sane;
  }

  /** What recovery from a moment of a run that started from `x` comes to. */
  ghost predicate RecoversTo(x: Namespace, crash: Instant, reliable: bool, finished: bool, recovered: Namespace) {
    var ns, r := crash.ns, crash.saved;
    && (Recover(ns, r).Some? ==> (finished ==> recovered == Recover(ns, r).value) && (reliable ==> finished))
    && (!InWindow(ns, r) && !Blocked(ns, r) ==> Recover(ns, r) == Some(x))
    && (Blocked(ns, r) ==> !finished && r.head.operation.Copy? && !NamesFree(x, r))
    && (InWindow(ns, r) ==> Recover(ns, r) == Some(x) || Recover(ns, Unwindowed(r)) == Some(x))
  }

  /** Crash recovery from any moment of a tracked run, copy or move: restoring the last checkpoint with
      the same plan and retrying gives back the starting namespace, in at most three turns an entry and
      one more. There are two exceptions. A foreign object at an announced temporary path prevents it
      for good, which can happen only to a plan whose temporary names were not free. And in the
      window of a forward rename the object stays at its destination. */
  method RecoverMoment(op: Operation, plan: seq<Entry>, limit: nat, moment: nat, reliable: bool, retries: nat,
                       proposal: Proposal, ghost x: Namespace)
    returns (again: Operation, finished: bool, turns: nat)
    requires op.Well() && SameTasks(plan, op.r.entries) && 0 < |plan| <= limit
    requires forall j :: 0 <= j < |plan| ==> SavableEntry(plan[j])
    requires moment < |op.backend.w.history|
    requires Good(Exact, x, op.backend.w.history[moment].ns, op.backend.w.history[moment].saved)
    ensures fresh(again) && fresh(again.backend) && again.backend.reliable == reliable
    ensures Resumes(op.backend.w.history[moment], again) && (finished <==> !again.r.head.recoveryRequired)
    ensures
      var crash := op.backend.w.history[moment];
      var end := Recover(crash.ns, crash.saved);
      end.Some? ==> AllGood(Strict(0), end.value, again.backend.w.history)
    ensures RecoversTo(x, op.backend.w.history[moment], reliable, finished, again.backend.w.ns)
    ensures turns <= 3 * |plan| + 1
  {
    var crash := op.backend.w.history[moment];
    HistoryPlanned(op.backend.w, op.r, plan, moment);
    BlockedNeverRecovers(crash.ns, crash.saved);
    GoodMoment(x, crash);
    hide Sound, Sane, AllGood, Recover;
    again, finished, turns := RecoverFrom(
      crash, plan, limit, true, reliable, retries, proposal, Recover(crash.ns, crash.saved));
  }

  lemma GoodMoment(x: Namespace, i: Instant)
    requires Good(Exact, x, i.ns, i.saved)
    ensures Interrupted(i.saved) && AllRoll(i.saved)
    ensures Recover(i.ns, i.saved) == Some(x) || Collides(x, i.ns, i.saved) || Windowed(x, i.ns, i.saved)
  {
  }

  lemma GoodAt(claim: Claim, x: Namespace, history: seq<Instant>, k: nat)
    requires AllGood(claim, x, history) && !claim.Loose? && k < |history| && (claim.Strict? ==> claim.since <= k)
    ensures Good(claim, x, history[k].ns, history[k].saved)
  {
  }

  /** Crash recovery of a whole copy. Nobody else touching the namespace, a copy whose rollback is
      exact may be cut at any moment of its run, forward or rolling back; the recovery that starts with
      what that moment left on the disk is at every moment of its own on the way to the starting
      namespace and ends in it, unless it is blocked; and where the plan's temporary names are free,
      it is never blocked. */
  method CrashAndRecover(ns: Namespace, policy: Policy, plan: seq<Entry>, limit: nat, capacity: nat,
                         reliable: bool, proposal: Proposal, pumps: nat, moment: nat, reliableAfter: bool, retries: nat)
    returns (op: Operation, phase: Phase, pumped: nat, again: Operation, finished: bool, turns: nat)
    requires Closed(ns) && Startable(Copy, policy, plan, limit) && ExactPlan(policy, plan)
    ensures op.Well() && op.backend.quiet && op.backend.start == FirstInstant(ns, Copy, policy, plan)
    ensures SameJob(StartedRecord(Copy, policy, plan), op.r)
    ensures InPhase(Some(ns), Exact, true, op.backend.w, op.r, op.fileOpen, op.stream, phase)
    ensures pumped == pumps || (pumped < pumps && !phase.Going? && !phase.RollingBack?)
    ensures moment < |op.backend.w.history| ==>
      var crash := op.backend.w.history[moment];
      && Resumes(crash, again) && again.backend.reliable == reliableAfter && !InWindow(crash.ns, crash.saved)
      && (finished <==> !again.r.head.recoveryRequired)
      && (finished ==> again.backend.w.ns == ns) && (Blocked(crash.ns, crash.saved) ==> !finished)
      && (!Blocked(crash.ns, crash.saved) ==> AllGood(Strict(0), ns, again.backend.w.history))
      && (reliableAfter ==> (finished <==> !Blocked(crash.ns, crash.saved)))
      && (NamesFree(ns, StartedRecord(Copy, policy, plan)) ==> !Blocked(crash.ns, crash.saved))
    ensures turns <= 3 * |plan| + 1
  {
    hide Sound, Recover, Sane;
    op, phase, pumped := RunCopy(ns, policy, plan, limit, capacity, true, reliable, proposal, pumps);
    LawfulHistory(op.backend.w, op.r);
    again, finished, turns := op, false, 0;
    if moment < |op.backend.w.history| {
      var crash := op.backend.w.history[moment];
      PlanOf(Copy, policy, plan, limit, op.r);
      HistoryPlanned(op.backend.w, op.r, plan, moment);
      SameJobThrough(StartedRecord(Copy, policy, plan), op.r, crash.saved);
      SameNames(ns, StartedRecord(Copy, policy, plan), crash.saved);
      GoodAt(Exact, ns, op.backend.w.history, moment);
      hide SameTasks, NamesFree, StartedRecord;
      again, finished, turns := RecoverMoment(op, plan, limit, moment, reliableAfter, retries, proposal, ns);
    }
  }

  lemma LawfulHistory(w: World, r: Record)
    requires Sound(w, r)
    ensures |w.history| > 0
  {
  }

  lemma PlanOf(kind: OperationKind, policy: Policy, plan: seq<Entry>, limit: nat, r: Record)
    requires Startable(kind, policy, plan, limit) && SameJob(StartedRecord(kind, policy, plan), r)
    ensures SameTasks(plan, r.entries) && 0 < |plan| <= limit
    ensures forall j :: 0 <= j < |plan| ==> SavableEntry(plan[j])
  {
    forall j | 0 <= j < |plan| ensures SavableEntry(plan[j]) && SameTask(plan[j], r.entries[j]) {
      assert StartableEntry(kind, plan, j);
      assert SameTask(StartedRecord(kind, policy, plan).entries[j], r.entries[j]);
    }
  }

  /** What a finished copy that replaced nothing amounts to: everything that was there is unchanged,
      every entry is in place or was skipped because a name was taken, a file holds the bytes and a
      symbolic link the target that its source had at the start, a hard link shares the object it links
      to, and the progress counter stands at the total. */
  lemma CopyIsFaithful(x: Namespace, claim: Claim, w: World, r: Record, stream: Stream, j: nat)
    requires InPhase(Some(x), claim, true, w, r, false, stream, Copied) && !r.head.policy.ConflictReplace?
    requires j < |r.entries|
    ensures Extends(x, w.ns) && stream.completed == FileBytes(r.entries, |r.entries|)
    ensures Skipped(r.entries, j) ==> r.head.policy.ConflictSkip?
    ensures r.entries[j].skip ==> Taken(x, r.entries, j)
    ensures !Skipped(r.entries, j) ==>
      var task := r.entries[j].task;
      && task.dest in w.ns && w.ns[task.dest].id == r.entries[j].objectId
      && RightKind(task.kind, w.ns[task.dest].kind) && Carried(x, task, w.ns[task.dest]) && Shares(w.ns, r.entries, j)
  {
    assert Placed(x, w.ns, r.entries[j]) && Shares(w.ns, r.entries, j);
  }

  /** The same of one that may replace what it finds, where no destination lies at or above a source or the
      destination of an earlier entry. */
  lemma ReplacementIsFaithful(x: Namespace, claim: Claim, w: World, r: Record, stream: Stream, j: nat)
    requires InPhase(Some(x), claim, true, w, r, false, stream, Copied) && Replacing(r) && j < |r.entries|
    ensures SourceKept(x, w.ns, r.entries[j].task) && stream.completed == FileBytes(r.entries, |r.entries|)
    ensures
      var task := r.entries[j].task;
      && task.dest in w.ns && w.ns[task.dest].id == r.entries[j].objectId
      && RightKind(task.kind, w.ns[task.dest].kind) && Carried(x, task, w.ns[task.dest])
  {
    assert Placed(x, w.ns, r.entries[j]) && SourceKept(x, w.ns, r.entries[j].task);
  }

  /** A finished copy that replaced nothing added its copies and nothing else: no temporary object
      is left. */
  lemma CopyAddsNothingElse(x: Namespace, claim: Claim, w: World, r: Record, stream: Stream)
    requires Sound(w, r) && InPhase(Some(x), claim, true, w, r, false, stream, Copied) &&
      !r.head.policy.ConflictReplace?
    ensures forall p :: p in w.ns ==> p in x || MadeAt(r.entries, p)
  {
    assert Recover(w.ns, r) == UndoPrefix(Some(w.ns), r.entries, |r.entries|);
    UndoneDestinations(w.ns, r.entries, |r.entries|, x);
  }

  // Undoing a finished copy.

  function UndoRecord(r: Record): Record {
    WithHead(r, r.head.(
      entryIndex := |r.entries|, rollbackIndex := 0, active := true, recoveryRequired := false,
      rollbackActive := false, undoActive := true, pending := InProgress))
  }

  /** Sets up the undo of a finished copy from its image; refuses one that had not ended. */
  method StartUndo(backend: Backend, image: Image, plan: seq<Entry>, limit: nat, capacity: nat)
    returns (res: Result, op: Operation)
    ensures fresh(op) && op.backend == backend && op.past == backend.w.past
    ensures res == InProgress <==>
      && image.operation.Copy? && !image.recoveryRequired && !image.rollbackActive && !image.undoActive
      && image.entryIndex == |plan| && RestoreImage(image, plan, false, limit).Some?
    ensures res == InProgress ==> op.r == UndoRecord(RestoreImage(image, plan, false, limit).value)
  {
    var r := StartedRecord(Copy, ConflictFail, plan);
    res := InvalidArgument;
    if image.operation.Copy? && !image.recoveryRequired && !image.rollbackActive && !image.undoActive &&
       image.entryIndex == |plan| {
      var restored := RestoreImage(image, plan, false, limit);
      if restored.Some? {
        r := UndoRecord(restored.value);
        res := InProgress;
      }
    }
    op := new Operation(backend, r, capacity, Loose);
  }

  /** A finished copy leads back to where it started, through its saved image as well. */
  lemma FinishedUndoes(x: Namespace, claim: Claim, w: World, r: Record, stream: Stream)
    requires Sound(w, r) && r.head.operation.Copy?
    requires InPhase(Some(x), claim, true, w, r, false, stream, Copied)
    ensures Undoing(x, w.ns, UndoRecord(Resumed(r))) && Sound(w, UndoRecord(Resumed(r)))
  {
    var r' := UndoRecord(Resumed(r));
    assert r'.entries == r.entries && !r.tempCreated;
    assert Recover(w.ns, r) == UndoPrefix(Some(w.ns), r.entries, |r.entries|);
  }

  /** Undo inverts copy. A copy under any policy that ran to its end, undone from its saved image with
      nobody else touching the namespace, gives back the namespace it started from; and when calls
      fail only for cause, the undo always gets there, in at most one pump an entry and one more. */
  method CopyThenUndo(op: Operation, plan: seq<Entry>, limit: nat, ghost x: Namespace)
    returns (undo: Operation, undone: bool, pumps: nat)
    requires op.Well() && op.backend.quiet && op.r.head.operation.Copy? && SameTasks(plan, op.r.entries)
    requires 0 < |plan| <= limit && forall j :: 0 <= j < |plan| ==> SavableEntry(plan[j])
    requires InPhase(Some(x), op.claim, true, op.backend.w, op.r, false, op.stream, Copied)
    modifies op.backend`w
    ensures fresh(undo) && undo.backend == op.backend && undo.Well() && SameJob(op.r, undo.r)
    ensures undone <==> !undo.r.head.active && !undo.r.head.undoActive
    ensures undone ==> op.backend.w.ns == x && undo.r.head.entryIndex == 0
    ensures op.backend.reliable ==> undone
    ensures pumps <= |plan| + 1
  {
    hide Sound, InPhase, Recover, Undoing, Restorable, RestoreImage, SavableEntry;
    CopiedHead(Some(x), op.claim, op.backend.w, op.r, op.stream);
    SaveThenRestore(op.r, plan, false, limit);
    FinishedUndoes(x, op.claim, op.backend.w, op.r, op.stream);
    ResumedJob(op.r);
    var image := Save(op.r, limit);
    var res;
    res, undo := StartUndo(op.backend, image.value, plan, limit, op.capacity);
    undone, pumps := UndoAll(undo, Some(x));
  }

  lemma CopiedHead(x: Option<Namespace>, claim: Claim, w: World, r: Record, stream: Stream)
    requires Sound(w, r) && r.head.operation.Copy? && InPhase(x, claim, true, w, r, false, stream, Copied)
    ensures !r.head.active && Undisturbed(r.head) && r.head.entryIndex == |r.entries| && Restorable(r)
  {
  }

  lemma ResumedJob(r: Record)
    ensures SameJob(r, UndoRecord(Resumed(r))) && |UndoRecord(Resumed(r)).entries| == |r.entries|
  {
  }

  /** Pumps an undo until it ends or fails. Whatever others do, it does them no harm. */
  method UndoAll(op: Operation, ghost x: Option<Namespace>) returns (undone: bool, pumps: nat)
    requires op.Well() && op.r.head.operation.Copy?
    requires x.Some? ==> op.backend.quiet && Undoing(x.value, op.backend.w.ns, op.r)
    modifies op`r, op.backend`w
    ensures op.Well() && Harmless(op.backend.w.deeds, op.backend.w.made) && SameJob(old(op.r), op.r)
    ensures old(op.r.head.active || op.r.head.undoActive) ==> (undone <==> !op.r.head.active && !op.r.head.undoActive)
    ensures undone ==> op.r.head.entryIndex == 0
    ensures x.Some? && undone ==> op.backend.w.ns == x.value
    ensures x.Some? && op.backend.reliable ==> undone
    ensures pumps <= old(op.r.head.entryIndex) + 1
  {
    hide Sound, Undoing, SameTasks;
    SameJobAlways(op.r);
    var res := InProgress;
    pumps := 0;
    while res == InProgress
      invariant op.Well() && op.r.head.operation.Copy? && SameJob(old(op.r), op.r)
      invariant res != Completed ==>
        op.r.head.active == old(op.r.head.active) && op.r.head.undoActive == old(op.r.head.undoActive)
      invariant res == Completed ==> !op.r.head.active && !op.r.head.undoActive && op.r.head.entryIndex == 0
      invariant x.Some? && res == InProgress ==> Undoing(x.value, op.backend.w.ns, op.r)
      invariant x.Some? && res == Completed ==> op.backend.w.ns == x.value
      invariant x.Some? && op.backend.reliable ==> res == InProgress || res == Completed
      invariant res == InProgress ==> pumps + op.r.head.entryIndex == old(op.r.head.entryIndex)
      invariant pumps <= old(op.r.head.entryIndex) + 1
      decreases res == InProgress, op.r.head.entryIndex
    {
      ghost var r0 := op.r;
      res := PumpUndo(op, x);
      SameJobThrough(old(op.r), r0, op.r);
      pumps := pumps + 1;
    }
    undone := res == Completed;
    SoundIsHarmless(op.backend.w, op.r);
  }

  // Moving.

  /** Where a move stands while tracking is kept. */
  ghost predicate InMovePhase(claim: Claim, x: Option<Namespace>, quiet: bool, w: World, r: Record, phase: Phase) {
    && (x.Some? ==> AllGood(claim, x.value, w.history))
    && match phase
       case Going =>
         && PristineFrom(r.entries, r.head.entryIndex)
         && Follows(quiet, claim, x, w, r)
         && (x.Some? ==> MoveForward(r) && !r.head.policy.ConflictReplace? && !claim.Strict?)
       case RollingBack =>
         r.head.active && r.head.rollbackActive && (x.Some? ==> Follows(quiet, claim, x, w, r) && Rollable(r))
       case Stuck => !r.head.active && r.head.recoveryRequired
       case RolledBack => !r.head.active && !r.head.recoveryRequired && (x.Some? ==> w.ns == x.value)
       case Copied => !r.head.active && r.head.entryIndex == |r.entries| && Ended(quiet, claim, x, w, r)
  }

  /** One pump of a move, forward or back. */
  method PumpAnyMove(op: Operation, phase: Phase, ghost x: Option<Namespace>) returns (next: Phase, ghost loss: Loss)
    requires op.Well() && !op.r.head.operation.Copy? && !op.claim.Loose? && (phase.Going? || phase.RollingBack?)
    requires InMovePhase(op.claim, x, op.backend.quiet, op.backend.w, op.r, phase)
    modifies op`r, op`claim, op`past, op`sourceHandle, op`tempHandle, op`fileOpen, op.backend`w
    ensures op.Well() && SameJob(old(op.r), op.r) && old(op.past) <= op.past
    ensures x.Some? ==>
      Accounted(old(op.claim), x.value, old(op.r), old(op.backend.w.ns), op.backend.reliable, op.past, loss)
    ensures op.claim == if x.Some? && loss.Window? then Strict(loss.moment) else old(op.claim)
    ensures InMovePhase(op.claim, Aim(x, loss), op.backend.quiet, op.backend.w, op.r, next)
    ensures (phase.RollingBack? ==> loss.Kept?) && (phase.RollingBack? || loss.Window? ==> !next.Going?)
    ensures phase.Going? && old(op.r.head.entryIndex >= |op.r.entries|) ==>
      next.Copied? && loss.Kept? && op.backend.w == old(op.backend.w)
    ensures x.Some? && phase.Going? && old(MoveAble(op)) ==>
      && next.Going? && loss.Kept? && op.r.head.entryIndex == old(op.r.head.entryIndex) + 1
      && MovesOn(old(op.backend.w.ns), old(op.r), old(op.r.head.entryIndex), op.backend.w.ns, op.r)
  {
    hide Sound, MoveForward, Rollable, AllGood, Recover, Restorable, AllRoll, SameTasks, PristineFrom, MovesOn,
      MoveFits, Led;
    var res, step;
    loss := Kept;
    if phase.Going? {
      res, step, loss := PumpMove(op, x);
    } else {
      res, step := PumpRollback(op, x);
    }
    next := if step == -1 then Stuck else if step == 1 then RollingBack else if step == 0 then RolledBack
            else if res == InProgress then Going else Copied;
  }

  /** What an undisturbed run of a move keeps of the objects of `x`, at every moment. */
  ghost predicate NothingLost(plan: seq<Entry>, x: Namespace, history: seq<Instant>) {
    forall k :: 0 <= k < |history| ==> BeginsWith(plan, x, history[k])
  }

  /** Why tracking was lost, in terms of the start. Every moment up to there led to the start. An object
      with a token was there at the start; when no path of the plan lies above another, it was the object
      of the entry at which it was met. In the window of a rename of this plan a call had failed. */
  ghost predicate Explained(plan: seq<Entry>, ns: Namespace, reliable: bool, history: seq<Instant>, loss: Loss) {
    && (!loss.Kept? ==> Led(Exact, ns, history, loss))
    && (loss.Marked? ==>
          && loss.entry < |plan| && loss.id.HasToken() && Present(ns, loss.id)
          && (Unrelated(plan) ==> MarkedSource(plan, ns, loss.entry, loss.id)))
    && (loss.Window? ==> SameTasks(plan, loss.record.entries) && !reliable)
  }

  /** Moves are undone exactly. Nobody else touching the namespace, a move leads back to where it
      started from every moment of its run outside the window of a forward rename, and a finished
      rollback has put every object back, unless tracking was lost. It is lost only to an object that
      carried a token at the start, or to a call that failed inside a window; up to there every moment
      led to the start. From a failure in a window on every moment leads to what undoing the record of
      that moment gives, and so does a finished rollback. And lost or not, every object without a token
      is at every moment under exactly one name, and at its source or at its destination. */
  method RunMove(kind: OperationKind, ns: Namespace, policy: Policy, plan: seq<Entry>, limit: nat, quiet: bool,
                 reliable: bool, pumps: nat)
    returns (op: Operation, phase: Phase, ghost loss: Loss, pumped: nat)
    requires Closed(ns) && !kind.Copy? && Startable(kind, policy, plan, limit)
    ensures fresh(op) && fresh(op.backend) && op.Well() && op.backend.quiet == quiet
    ensures op.backend.start == FirstInstant(ns, kind, policy, plan)
    ensures SameJob(StartedRecord(kind, policy, plan), op.r) && Harmless(op.backend.w.deeds, op.backend.w.made)
    ensures quiet ==> InMovePhase(LossClaim(loss), Aim(Some(ns), loss), true, op.backend.w, op.r, phase)
    ensures !quiet ==> InMovePhase(Exact, None, false, op.backend.w, op.r, phase)
    ensures quiet ==> NothingLost(plan, ns, op.backend.w.history) && Preserved(plan, ns, op.backend.w.ns)
    ensures quiet ==> Explained(plan, ns, reliable, op.backend.w.history, loss)
    ensures quiet && loss.Window? && Unrelated(plan) ==> LeftThere(plan, ns, loss)
    ensures quiet && reliable ==> !loss.Window?
    ensures quiet && TokenFree(ns) ==> !loss.Marked?
    ensures (quiet && Unrelated(plan) && forall j :: 0 <= j < |plan| ==> !MarkedAt(ns, plan[j].task.source)) ==>
      !loss.Marked?
    ensures pumped == pumps || (pumped < pumps && !phase.Going? && !phase.RollingBack?)
  {
    hide Sound, MoveForward, InMovePhase, SameTasks, Startable, TokenFree, Closed, StartedRecord, InWindow, Unrelated;
    hide Preserved, BeginsWith, Explained, Accounted, Led, Recover;
    op := BeginAnyMove(kind, ns, policy, plan, limit, quiet, reliable);
    ghost var x := if quiet then Some(ns) else None;
    phase, loss, pumped := Going, Kept, 0;
    NothingToExplain(plan, ns, reliable, op.past);
    while pumped < pumps && (phase.Going? || phase.RollingBack?)
      invariant fresh(op) && fresh(op.backend) && op.backend.quiet == quiet && pumped <= pumps
      invariant op.claim == if quiet then LossClaim(loss) else Exact
      invariant op.backend.start == FirstInstant(ns, kind, policy, plan) && op.backend.reliable == reliable
      invariant op.Well() && !op.r.head.operation.Copy? && SameJob(StartedRecord(kind, policy, plan), op.r)
      invariant InMovePhase(op.claim, Aim(x, loss), quiet, op.backend.w, op.r, phase)
      invariant loss.Window? ==> !phase.Going?
      invariant quiet ==> Explained(plan, ns, reliable, op.past, loss)
    {
      ghost var r0, ns0, l, past := op.r, op.backend.w.ns, loss, op.past;
      if quiet { EverywhereKept(op.backend.w, op.r, kind, policy, plan, limit, ns); }
      var cancel: bool := *;
      if cancel { op.cancelRequested := true; }
      phase, l := PumpAnyMove(op, phase, Aim(x, loss));
      if loss.Kept? {
        if quiet { AccountedFromStart(kind, policy, plan, limit, r0, ns, ns0, reliable, op.past, l); }
        loss := l;
      } else if quiet {
        ExplainedStays(plan, ns, reliable, past, op.past, loss);
      }
      SameJobThrough(StartedRecord(kind, policy, plan), r0, op.r);
      pumped := pumped + 1;
    }
    SoundIsHarmless(op.backend.w, op.r);
    if quiet {
      PastIsPrefix(op.backend.w, op.r);
      ExplainedStays(plan, ns, reliable, op.past, op.backend.w.history, loss);
      ExplainedMeans(plan, ns, reliable, op.backend.w.history, loss);
      if loss.Window? && Unrelated(plan) { WindowAim(plan, ns, reliable, op.backend.w, op.r, loss); }
      EverywhereKept(op.backend.w, op.r, kind, policy, plan, limit, ns);
    }
  }

  /** The aim after a failure in the window: the start, with the object of that entry at its destination. */
  ghost predicate LeftThere(plan: seq<Entry>, ns: Namespace, loss: Loss)
    requires loss.Window?
  {
    var j := loss.record.head.entryIndex;
    && j < |plan| && CanMove(ns, plan[j].task.source, plan[j].task.dest)
    && Aim(Some(ns), loss) == Some(Moved(ns, plan[j].task.source, plan[j].task.dest))
  }

  lemma WindowAim(plan: seq<Entry>, ns: Namespace, reliable: bool, w: World, r: Record, loss: Loss)
    requires Sound(w, r) && Explained(plan, ns, reliable, w.history, loss) && loss.Window? && Unrelated(plan)
    ensures LeftThere(plan, ns, loss)
  {
    hide Sound, AllRoll, Recover, Moved, CanMove, Closed, Unrelated, AllGood, EntryOnTop;
    LastIsClosed(w, r, loss.moment, loss.ns);
    UnrelatedSame(plan, loss.record.entries);
    WindowLeaves(ns, loss.ns, loss.record);
  }

  lemma UnrelatedSame(a: seq<Entry>, b: seq<Entry>)
    requires SameTasks(a, b) && Unrelated(a)
    ensures Unrelated(b)
  {
    forall j | 0 <= j < |a| ensures SameTask(a[j], b[j]) { }
  }

  lemma LastIsClosed(w: World, r: Record, n: nat, ns: Namespace)
    requires Sound(w, r) && 0 < n <= |w.history| && w.history[..n][n - 1].ns == ns
    ensures Closed(ns)
  {
    assert Sane(w.history[n - 1]);
  }

  /** What is claimed of the moments from a loss on. */
  ghost function LossClaim(loss: Loss): Claim { if loss.Window? then Strict(loss.moment) else Exact }

  lemma PastIsPrefix(w: World, r: Record)
    requires Sound(w, r)
    ensures w.past <= w.history
  {
  }

  lemma ExplainedStays(plan: seq<Entry>, ns: Namespace, reliable: bool, a: seq<Instant>, b: seq<Instant>, loss: Loss)
    requires Explained(plan, ns, reliable, a, loss) && a <= b
    ensures Explained(plan, ns, reliable, b, loss)
  {
    hide Led, SameTasks, Unrelated;
    if !loss.Kept? { LedStays(Exact, ns, a, b, loss); }
  }

  lemma NothingToExplain(plan: seq<Entry>, ns: Namespace, reliable: bool, past: seq<Instant>)
    ensures Explained(plan, ns, reliable, past, Kept)
  {
  }

  lemma ExplainedMeans(plan: seq<Entry>, ns: Namespace, reliable: bool, history: seq<Instant>, loss: Loss)
    requires Explained(plan, ns, reliable, history, loss)
    ensures reliable ==> !loss.Window?
    ensures TokenFree(ns) ==> !loss.Marked?
    ensures (Unrelated(plan) && forall j :: 0 <= j < |plan| ==> !MarkedAt(ns, plan[j].task.source)) ==> !loss.Marked?
  {
  }

  /** What a pump met was there at the start. */
  lemma AccountedFromStart(kind: OperationKind, policy: Policy, plan: seq<Entry>, limit: nat, r: Record,
                           x: Namespace, ns: Namespace, reliable: bool, past: seq<Instant>, loss: Loss)
    requires Startable(kind, policy, plan, limit) && SameJob(StartedRecord(kind, policy, plan), r)
    requires Preserved(plan, x, ns) && Accounted(Exact, x, r, ns, reliable, past, loss)
    ensures Explained(plan, x, reliable, past, loss)
  {
    PlanOf(kind, policy, plan, limit, r);
    if loss.Window? {
      SameJobThrough(StartedRecord(kind, policy, plan), r, loss.record);
      PlanOf(kind, policy, plan, limit, loss.record);
    }
    hide Startable, StartedRecord, Unrelated, Rearranged, InPlaces, InWindow, Closed, Led;
    if loss.Marked? {
      var j := loss.entry;
      assert SameTask(plan[j], r.entries[j]);
      var p := NothingNew(plan, x, ns, plan[j].task.source);
      if Unrelated(plan) { FoundAtSource(plan, j, x, ns); }
    }
  }

  /** At every moment of an undisturbed move, of its rollback and of its recovery the objects of `x` are
      as they should be, if they were so at first. */
  lemma EverywhereKept(w: World, r: Record, kind: OperationKind, policy: Policy, plan: seq<Entry>, limit: nat,
                       x: Namespace)
    requires Sound(w, r) && w.quiet && !kind.Copy?
    requires Startable(kind, policy, plan, limit) && SameJob(StartedRecord(kind, policy, plan), r)
    requires BeginsWith(plan, x, w.start) || w.start == FirstInstant(x, kind, policy, plan)
    ensures NothingLost(plan, x, w.history) && Preserved(plan, x, w.ns)
  {
    PlanOf(kind, policy, plan, limit, r);
    LawfulHistory(w, r);
    if w.start == FirstInstant(x, kind, policy, plan) { FirstBegins(w, r, kind, policy, plan, limit); }
    BeginsBySame(plan, r.entries, x, w.start);
    hide BeginsWith, Sound, Preserved;
    forall k | 0 <= k < |w.history| ensures BeginsWith(plan, x, w.history[k]) && Preserved(plan, x, w.ns) {
      MoveKeepsEverything(w, r, x, k);
      BeginsBySame(r.entries, plan, x, w.history[k]);
      PreservedBySame(r.entries, plan, x, w.ns);
    }
    assert BeginsWith(plan, x, w.history[0]);
  }

  lemma FirstBegins(w: World, r: Record, kind: OperationKind, policy: Policy, plan: seq<Entry>, limit: nat)
    requires Sound(w, r) && Startable(kind, policy, plan, limit)
    requires w.start.saved == StartedRecord(kind, policy, plan)
    ensures BeginsWith(plan, w.start.ns, w.start)
  {
    forall j | 0 <= j < |plan| ensures Idle(w.start.saved.entries[j]) {
      assert StartableEntry(kind, plan, j);
    }
    StartPreserved(plan, w.start);
  }

  lemma BeginsBySame(a: seq<Entry>, b: seq<Entry>, x: Namespace, i: Instant)
    requires SameTasks(a, b) && BeginsWith(a, x, i)
    ensures BeginsWith(b, x, i)
  {
    forall j | 0 <= j < |a| ensures SameTask(a[j], b[j]) && SameTask(b[j], a[j]) { }
    PreservedBySame(a, b, x, i.ns);
    hide Preserved;
    assert Unrelated(b) ==> Unrelated(a);
  }

  /** Crash recovery of a whole move. Nobody else touching the namespace, a move may be cut at any moment of
      its run, forward or rolling back. Up to a loss of tracking recovery gives back the start, except in
      the window of a rename; after a failure in a window it gives what the rollback was leading to. */
  method CrashAndRecoverMove(kind: OperationKind, ns: Namespace, policy: Policy, plan: seq<Entry>, limit: nat,
                             reliable: bool, pumps: nat, moment: nat, reliableAfter: bool, retries: nat)
    returns (op: Operation, phase: Phase, ghost loss: Loss, pumped: nat, again: Operation, finished: bool, turns: nat)
    requires Closed(ns) && !kind.Copy? && Startable(kind, policy, plan, limit)
    ensures op.Well() && op.backend.quiet && op.backend.start == FirstInstant(ns, kind, policy, plan)
    ensures SameJob(StartedRecord(kind, policy, plan), op.r)
    ensures InMovePhase(LossClaim(loss), Aim(Some(ns), loss), true, op.backend.w, op.r, phase)
    ensures Explained(plan, ns, reliable, op.backend.w.history, loss)
    ensures pumped == pumps || (pumped < pumps && !phase.Going? && !phase.RollingBack?)
    ensures moment < |op.backend.w.history| && (loss.Kept? || moment < loss.moment) ==>
      var crash := op.backend.w.history[moment];
      && Resumes(crash, again) && (finished <==> !again.r.head.recoveryRequired)
      && RecoversTo(ns, crash, reliableAfter, finished, again.backend.w.ns)
    ensures loss.Window? && loss.moment <= moment < |op.backend.w.history| && Aim(Some(ns), loss).Some? ==>
      && Resumes(op.backend.w.history[moment], again) && (finished <==> !again.r.head.recoveryRequired)
      && (finished ==> again.backend.w.ns == Aim(Some(ns), loss).value) && (reliableAfter ==> finished)
    ensures turns <= 3 * |plan| + 1
  {
    hide Sound, Recover, Sane, InMovePhase, Explained, SameTasks, Startable, StartedRecord, Closed, Preserved,
      LeftThere;
    hide NothingLost, Unrelated, TokenFree, Harmless, RecoversTo, Good;
    op, phase, loss, pumped := RunMove(kind, ns, policy, plan, limit, true, reliable, pumps);
    again, finished, turns := op, false, 0;
    if moment < |op.backend.w.history| {
      PlanOf(kind, policy, plan, limit, op.r);
      ghost var aim, now := Aim(Some(ns), loss), loss.Kept? || moment < loss.moment;
      MoveMoment(plan, ns, reliable, op.backend.w, op.r, phase, loss, moment);
      var crash := op.backend.w.history[moment];
      HistoryPlanned(op.backend.w, op.r, plan, moment);
      ghost var end := if now then Recover(crash.ns, crash.saved) else if loss.Window? then aim else None;
      if Interrupted(crash.saved) {
        again, finished, turns := RecoverFrom(crash, plan, limit, true, reliableAfter, retries, (_, _) => None, end);
        if now { MoveRecovers(ns, crash, reliableAfter, finished, again.backend.w.ns); }
      }
    }
  }

  /** Where a moment of a move leads. */
  lemma MoveMoment(plan: seq<Entry>, ns: Namespace, reliable: bool, w: World, r: Record, phase: Phase, loss: Loss,
                   k: nat)
    requires InMovePhase(LossClaim(loss), Aim(Some(ns), loss), true, w, r, phase) && k < |w.history|
    requires Explained(plan, ns, reliable, w.history, loss)
    ensures loss.Kept? || k < loss.moment ==>
      Good(Exact, ns, w.history[k].ns, w.history[k].saved) && Interrupted(w.history[k].saved) &&
      AllRoll(w.history[k].saved)
    ensures loss.Window? && loss.moment <= k && Aim(Some(ns), loss).Some? ==>
      && Interrupted(w.history[k].saved) && AllRoll(w.history[k].saved)
      && Recover(w.history[k].ns, w.history[k].saved) == Aim(Some(ns), loss)
  {
    hide Recover, AllRoll, Interrupted, SameTasks;
    if loss.Kept? {
      GoodAt(Exact, ns, w.history, k);
    } else if k < loss.moment {
      GoodAt(Exact, ns, w.history[..loss.moment], k);
    } else if loss.Window? && Aim(Some(ns), loss).Some? {
      GoodAt(LossClaim(loss), Aim(Some(ns), loss).value, w.history, k);
    }
  }

  lemma MoveRecovers(x: Namespace, crash: Instant, reliable: bool, finished: bool, recovered: Namespace)
    requires Good(Exact, x, crash.ns, crash.saved)
    requires
      var end := Recover(crash.ns, crash.saved);
      && (end.Some? && finished ==> recovered == end.value) && (end.Some? && reliable ==> finished)
      && (Blocked(crash.ns, crash.saved) ==> !finished)
    ensures RecoversTo(x, crash, reliable, finished, recovered)
  {
    BlockedNeverRecovers(crash.ns, crash.saved);
    hide Recover, NamesFree;
  }

  method BeginAnyMove(kind: OperationKind, ns: Namespace, policy: Policy, plan: seq<Entry>, limit: nat, quiet: bool,
                      reliable: bool) returns (op: Operation)
    requires Closed(ns) && !kind.Copy? && Startable(kind, policy, plan, limit)
    ensures fresh(op) && fresh(op.backend) && op.backend.quiet == quiet && op.backend.reliable == reliable
    ensures op.claim.Exact? && op.backend.start == FirstInstant(ns, kind, policy, plan) && op.backend.w.ns == ns
    ensures op.Well() && op.r == StartedRecord(kind, policy, plan) && SameJob(op.r, op.r) && !op.r.head.operation.Copy?
    ensures !op.cancelRequested
    ensures InMovePhase(Exact, if quiet then Some(ns) else None, quiet, op.backend.w, op.r, Going)
  {
    var res, r := Start(kind, policy, plan, limit);
    ghost var w0 := Begun(FirstInstant(ns, kind, policy, plan), quiet);
    Started(kind, ns, policy, plan, limit, Exact, w0);
    var backend := new Backend(FirstInstant(ns, kind, policy, plan), quiet, reliable, (_, _) => None);
    op := new Operation(backend, r, 0, Exact);
  }
}
