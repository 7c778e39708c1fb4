/** Saving, restoring and retrying: how an interrupted operation is finished after a restart. */
module FileRecovery {
  import opened Common
  import opened Namespaces
  import opened UndoSpec
  import opened FileBackend
  import opened FileOperations

  /** What is saved of an entry: everything but the plan. */
  datatype SavedEntry = SavedEntry(
    skip: bool, created: bool, applied: bool, cleanup: Cleanup, objectId: Identity,
    replacement: Replacement, backup: Path, backupId: Identity)

  datatype Image = Image(
    operation: OperationKind, policy: Policy, pending: Result,
    recoveryRequired: bool, rollbackActive: bool, undoActive: bool, entryIndex: nat, rollbackIndex: nat,
    tempCreated: bool, tempPath: Path, tempId: Identity, tempCleanup: Cleanup, entries: seq<SavedEntry>)

  function SaveEntry(e: Entry): SavedEntry {
    SavedEntry(e.skip, e.created, e.applied, e.cleanup, e.objectId, e.replacement, e.backup, e.backupId)
  }

  /** The image of a record, if it can be saved; `limit` is the most entries an image holds. */
  function Save(r: Record, limit: nat): Option<Image> {
    if && 0 < |r.entries| <= limit && r.head.entryIndex <= |r.entries|
       && !r.tempCleanup.RenameInProgress? && !r.tempCleanup.RenameSyncPending?
       && (r.tempCreated ==> r.tempPath != [])
       && (forall j :: 0 <= j < |r.entries| ==> SavableEntry(r.entries[j]))
    then Some(Image(
      r.head.operation, r.head.policy, r.head.pending,
      r.head.recoveryRequired || r.head.active, r.head.rollbackActive, r.head.undoActive,
      r.head.entryIndex, r.head.rollbackIndex,
      r.tempCreated, if r.tempCreated then r.tempPath else [],
      if r.tempCreated then r.tempId else NO_IDENTITY, r.tempCleanup,
      seq(|r.entries|, j requires 0 <= j < |r.entries| => SaveEntry(r.entries[j]))))
    else None
  }

  function RestoreEntry(plan: Entry, s: SavedEntry): Entry {
    plan.(skip := s.skip, created := s.created, applied := s.applied, cleanup := s.cleanup,
          objectId := s.objectId, replacement := s.replacement, backup := s.backup, backupId := s.backupId)
  }

  function RestoredResult(pending: Result): Result {
    if pending == OK || pending == InProgress || pending == Completed then IoFailed else pending
  }

  /** The record that an image and the caller's plan stand for, if the image is accepted. */
  function RestoreImage(m: Image, plan: seq<Entry>, interrupted: bool, limit: nat): Option<Record> {
    var n := |plan|;
    if && 0 < n == |m.entries| <= limit && (interrupted ==> m.recoveryRequired) && m.entryIndex <= n
       && SavableTemp(m.tempCreated, m.tempPath, m.tempId, m.tempCleanup)
       && (!m.tempCreated ==> m.tempPath == [] && m.tempId == NO_IDENTITY)
       && (forall j :: 0 <= j < n ==> SavableEntry(plan[j]) && SavableEntry(RestoreEntry(plan[j], m.entries[j])))
    then Some(Record(
      Header(m.operation, m.policy, RestoredResult(m.pending), false, true, false, m.undoActive, m.entryIndex, n),
      m.tempCreated, m.tempPath, m.tempId, m.tempCleanup,
      seq(n, j requires 0 <= j < n => RestoreEntry(plan[j], m.entries[j]))))
    else None
  }

  /** The caller's plan names the same paths and kinds, and is itself well formed. */
  ghost predicate SamePaths(plan: seq<Entry>, entries: seq<Entry>) {
    SameTasks(plan, entries) && forall j :: 0 <= j < |plan| ==> SavableEntry(plan[j])
  }

  /** The record as recovery finds it after a restart. */
  function Resumed(r: Record): Record {
    Record(
      Header(r.head.operation, r.head.policy, RestoredResult(r.head.pending), false, true, false,
             r.head.undoActive, r.head.entryIndex, |r.entries|),
      r.tempCreated, if r.tempCreated then r.tempPath else [],
      if r.tempCreated then r.tempId else NO_IDENTITY, r.tempCleanup, r.entries)
  }

  /** Saving a record and restoring it with the same paths succeeds exactly for restorable records,
      and gives the record back. Resuming an interrupted operation asks that it had not ended. */
  lemma SaveThenRestore(r: Record, plan: seq<Entry>, interrupted: bool, limit: nat)
    requires SamePaths(plan, r.entries) && 0 < |r.entries| <= limit && r.head.entryIndex <= |r.entries|
    requires interrupted ==> Interrupted(r)
    ensures (Save(r, limit).Some? && RestoreImage(Save(r, limit).value, plan, interrupted, limit).Some?) <==>
      Restorable(r)
    ensures Restorable(r) ==> RestoreImage(Save(r, limit).value, plan, interrupted, limit) == Some(Resumed(r))
  {
    if Save(r, limit).Some? {
      var m := Save(r, limit).value;
      assert forall j :: 0 <= j < |plan| ==> RestoreEntry(plan[j], m.entries[j]) == r.entries[j];
      if Restorable(r) {
        assert RestoreImage(m, plan, interrupted, limit).value.entries == r.entries;
      }
    }
  }

  /** A restart loses nothing that recovery needs, and at most three turns an entry and one for the
      temporary object remain. */
  lemma ResumedRecovers(ns: Namespace, r: Record)
    ensures Recover(ns, Resumed(r)) == Recover(ns, r) && Blocked(ns, Resumed(r)) == Blocked(ns, r)
    ensures Restorable(r) ==> Restorable(Resumed(r))
    ensures AllRoll(r) ==> Rollable(Resumed(r))
    ensures Work(Resumed(r)) <= 3 * |r.entries| + 1
  {
    WeightsBound(r.entries, |r.entries|);
    var r' := Resumed(r);
    assert TempUndone(ns, r') == TempUndone(ns, r);
    assert AllRoll(r) ==> forall j :: 0 <= j < |r'.entries| ==> r'.entries[j] == r.entries[j];
  }

  // Retrying.

  /** What one turn of recovery promises of a run that is tracked. */
  twostate predicate Turned(op: Operation, x: Option<Namespace>, step: int)
    requires old(op.r.head.rollbackIndex <= |op.r.entries|) && op.r.head.rollbackIndex <= |op.r.entries|
    reads op, op.backend
  {
    && SameJob(old(op.r), op.r) && Work(op.r) <= old(Work(op.r))
    && (step == -1 || step == 0 || step == 1)
    && (step == -1 ==> !op.r.head.active && op.r.head.recoveryRequired)
    && (step == 1 ==> op.r.head.active && op.r.head.rollbackActive && Work(op.r) < old(Work(op.r)))
    && (step == 0 ==> !op.r.head.active && !op.r.head.rollbackActive && !op.r.head.recoveryRequired)
    && (x.Some? && step != 0 && !old(Blocked(op.backend.w.ns, op.r)) ==>
          Follows(op.backend.quiet, op.claim, x, op.backend.w, op.r) && Rollable(op.r))
    && (x.Some? && step == 0 ==> op.backend.w.ns == x.value)
    && (x.Some? ==> AllGood(op.claim, x.value, op.backend.w.history))
    && (step != 0 ==> Stands(op.backend.quiet, op.claim, x, op.backend.w, op.r))
    && (x.Some? && op.backend.reliable && !old(Blocked(op.backend.w.ns, op.r)) ==> step != -1)
    && (op.backend.quiet && old(Blocked(op.backend.w.ns, op.r)) ==> step == -1 && Blocked(op.backend.w.ns, op.r))
  }

  /** Starts or resumes the rollback of an operation that asks for recovery. */
  method RetryRecovery(op: Operation, ghost x: Option<Namespace>) returns (res: Result, step: int)
    requires op.Well()
    requires Stands(op.backend.quiet, op.claim, x, op.backend.w, op.r)
    requires x.Some? ==> Blocked(op.backend.w.ns, op.r) || Rollable(op.r)
    modifies op`r, op`sourceHandle, op`tempHandle, op`fileOpen, op.backend`w
    ensures op.Well()
    ensures old(op.r.head.active || !op.r.head.recoveryRequired || op.r.entries == []) ==>
      res == InvalidArgument && op.r == old(op.r) && op.backend.w == old(op.backend.w)
    ensures old(!op.r.head.active && op.r.head.recoveryRequired && op.r.entries != []) ==>
      && Turned(op, x, step)
      && res == if step == -1 then RollbackFailed else if step == 1 then InProgress
                else RestoredResult(old(op.r.head.pending))
  {
    if op.r.head.active || !op.r.head.recoveryRequired || op.r.entries == [] {
      return InvalidArgument, -1;
    }
    assert Rollable(op.r) ==> Rollable(WithHead(op.r, op.r.head.(active := true, rollbackActive := true)));
    op.SetHead(op.r.head.(active := true, rollbackActive := true), x);
    res, step := op.RollbackTurn(RestoredResult(op.r.head.pending), x);
  }

  /** Pumps a rollback that is under way. */
  method PumpRollback(op: Operation, ghost x: Option<Namespace>) returns (res: Result, step: int)
    requires op.Well() && op.r.head.active && op.r.head.rollbackActive
    requires Stands(op.backend.quiet, op.claim, x, op.backend.w, op.r)
    requires x.Some? ==> Blocked(op.backend.w.ns, op.r) || Rollable(op.r)
    modifies op`r, op`sourceHandle, op`tempHandle, op`fileOpen, op.backend`w
    ensures op.Well()
    ensures Turned(op, x, step)
    ensures res == if step == -1 then RollbackFailed else if step == 1 then InProgress else old(op.r.head.pending)
  {
    res, step := op.RollbackTurn(op.r.head.pending, x);
  }

  /** Restores the durable record of a crashed run on the namespace it left behind. The tokens the
      run was given and the objects it made are still its own; others may be about. */
  method Restart(i: Instant, plan: seq<Entry>, limit: nat, quiet: bool, reliable: bool,
                 proposal: Proposal, ghost claim: Claim) returns (op: Operation)
    requires Sane(i) && Interrupted(i.saved) && SamePaths(plan, i.saved.entries) && 0 < |plan| <= limit
    ensures fresh(op) && fresh(op.backend) && op.claim == claim
    ensures op.backend.quiet == quiet && op.backend.reliable == reliable
    ensures op.r == Resumed(i.saved)
    ensures op.backend.w == Begun(i, quiet) && op.backend.start == i.(age := 0)
    ensures op.Well() && SameJob(i.saved, op.r)
  {
    SaveThenRestore(i.saved, plan, true, limit);
    ResumedRecovers(i.ns, i.saved);
    var image := Save(i.saved, limit);
    var restored := RestoreImage(image.value, plan, true, limit);
    ResumedOwn(i.saved, i.issued);
    var backend := new Backend(i, quiet, reliable, proposal);
    op := new Operation(backend, restored.value, 0, claim);
  }

  lemma ResumedOwn(r: Record, issued: set<Token>)
    requires Own(r, issued)
    ensures Own(Resumed(r), issued)
  {
    assert Resumed(r).entries == r.entries;
  }

  /** Crash recovery, with up to `retries` new attempts after failures. Whatever others do, it harms
      nothing of theirs. Undisturbed, and where recovery leads to `x`, every moment of it still leads
      to `x`, so that it may crash as well; when it finishes, the namespace is `x`; and when calls fail
      only for cause it finishes at once, in at most three turns an entry and one more. */
  method RecoverFrom(i: Instant, plan: seq<Entry>, limit: nat, quiet: bool, reliable: bool, retries: nat,
                     proposal: Proposal, ghost x: Option<Namespace>)
    returns (op: Operation, finished: bool, turns: nat)
    requires Sane(i) && Interrupted(i.saved) && SamePaths(plan, i.saved.entries) && 0 < |plan| <= limit
    requires x.Some? ==> quiet && AllRoll(i.saved) && Recover(i.ns, i.saved) == x
    ensures fresh(op) && fresh(op.backend) && op.Well() && Harmless(op.backend.w.deeds, op.backend.w.made)
    ensures op.backend.quiet == quiet && op.backend.reliable == reliable && op.backend.start == i.(age := 0)
    ensures SameJob(i.saved, op.r)
    ensures x.Some? ==> AllGood(Strict(0), x.value, op.backend.w.history)
    ensures finished <==> !op.r.head.recoveryRequired
    ensures x.Some? && finished ==> op.backend.w.ns == x.value
    ensures x.Some? && reliable ==> finished
    ensures quiet && Blocked(i.ns, i.saved) ==> !finished
    ensures turns <= 3 * |plan| + 1
  {
    op := Restart(i, plan, limit, quiet, reliable, proposal, if x.Some? then Strict(0) else Loose);
    ResumedRecovers(i.ns, i.saved);
    finished, turns := RetryAll(op, retries, x);
  }

  /** Retries a restored operation until it is done, pumping while there is progress and starting
      over after a failure as often as allowed. Only the turns that made progress are counted. */
  method RetryAll(op: Operation, retries: nat, ghost x: Option<Namespace>) returns (finished: bool, turns: nat)
    requires op.Well() && !op.r.head.active && op.r.head.recoveryRequired && op.r.entries != []
    requires op.r.head.rollbackIndex <= |op.r.entries| && Follows(op.backend.quiet, op.claim, x, op.backend.w, op.r)
    requires x.Some? ==> Rollable(op.r) && op.claim.Strict?
    modifies op`r, op`sourceHandle, op`tempHandle, op`fileOpen, op.backend`w
    ensures op.Well() && SameJob(old(op.r), op.r)
    ensures x.Some? ==> AllGood(op.claim, x.value, op.backend.w.history)
    ensures finished <==> !op.r.head.recoveryRequired
    ensures x.Some? && finished ==> op.backend.w.ns == x.value
    ensures x.Some? && op.backend.reliable ==> finished
    ensures op.backend.quiet && old(Blocked(op.backend.w.ns, op.r)) ==> !finished
    ensures turns <= old(Work(op.r))
  {
    hide Sound, Recover, AllGood, Rollable, AllRoll, Restorable, Work, Blocked;
    ghost var blocked := op.backend.quiet && Blocked(op.backend.w.ns, op.r);
    if x.Some? { BlockedNeverRecovers(op.backend.w.ns, op.r); }
    var res, step := RetryRecovery(op, x);
    IndexInBounds(op.backend.w, op.r);
    var left := retries;
    turns := if step == 1 then 1 else 0;
    while step == 1 || (step == -1 && left != 0)
      invariant op.Well() && SameJob(old(op.r), op.r) && -1 <= step <= 1
      invariant op.r.head.rollbackIndex <= |op.r.entries| && op.r.entries != []
      invariant x.Some? ==> AllGood(op.claim, x.value, op.backend.w.history)
      invariant step == 1 ==> op.r.head.active && op.r.head.rollbackActive
      invariant step == -1 ==> !op.r.head.active && op.r.head.recoveryRequired
      invariant step == 0 ==> !op.r.head.recoveryRequired && (x.Some? ==> op.backend.w.ns == x.value)
      invariant step != 0 ==> Stands(op.backend.quiet, op.claim, x, op.backend.w, op.r)
      invariant x.Some? && step != 0 ==> Follows(op.backend.quiet, op.claim, x, op.backend.w, op.r) && Rollable(op.r)
      invariant x.Some? && op.backend.reliable ==> step != -1
      invariant blocked ==> step == -1 && Blocked(op.backend.w.ns, op.r)
      invariant turns + Work(op.r) <= old(Work(op.r))
      decreases left, step == 1, Work(op.r)
    {
      if x.Some? { BlockedNeverRecovers(op.backend.w.ns, op.r); }
      if step == 1 {
        res, step := PumpRollback(op, x);
      } else {
        left := left - 1;
        res, step := RetryRecovery(op, x);
      }
      IndexInBounds(op.backend.w, op.r);
      if step == 1 { turns := turns + 1; }
    }
    finished := step == 0;
  }

  /** The moment of a run at which it is stopped; one that is not stopped ends with its last. */
  function Stop(history: seq<Instant>, cut: nat): (i: Instant)
    requires |history| > 0
    ensures i in history
  {
    history[if cut < |history| then cut else |history| - 1]
  }

  /** The operation was restored from the record and the namespace of moment `i`, with nobody else
      about, and is still at the same job. */
  ghost predicate Resumes(i: Instant, run: Operation)
    reads run, run.backend
  {
    run.Well() && run.backend.quiet && run.backend.start == i.(age := 0) && SameJob(i.saved, run.r)
  }

  /** Run `k + 1` goes on from where run `k` was stopped. */
  ghost predicate Linked(runs: seq<Operation>, cuts: seq<nat>, k: nat)
    requires k + 1 < |runs| <= |cuts| + 1
    reads runs, set o | o in runs :: o.backend
  {
    && |runs[k].backend.w.history| > 0
    && Resumes(Stop(runs[k].backend.w.history, cuts[k]), runs[k + 1])
  }

  /** Recovery after recovery, each stopped where `cuts` says, the first one from moment `i`. */
  ghost predicate Chained(i: Instant, runs: seq<Operation>, cuts: seq<nat>)
    reads runs, set o | o in runs :: o.backend
  {
    && 0 < |runs| <= |cuts| + 1 && Resumes(i, runs[0])
    && forall k: nat :: k + 1 < |runs| ==> Linked(runs, cuts, k)
  }

  lemma ChainGrows(i: Instant, runs: seq<Operation>, cuts: seq<nat>, run: Operation)
    requires Chained(i, runs, cuts) && |runs| <= |cuts|
    requires
      var history := runs[|runs| - 1].backend.w.history;
      |history| > 0 && Resumes(Stop(history, cuts[|runs| - 1]), run)
    ensures Chained(i, runs + [run], cuts)
  {
    hide Resumes, Stop;
    var more := runs + [run];
    forall k: nat | k + 1 < |more| ensures Linked(more, cuts, k) {
      if k + 1 < |runs| { assert Linked(runs, cuts, k); }
    }
  }

  /** Recovery may be interrupted as often as it likes. Undisturbed, from any moment that leads to `x`,
      let recovery after recovery be cut at any of its moments, calls failing at will; every moment of
      all of them leads to `x`, and the first one that is let run with calls that fail only for cause
      ends in `x`. */
  method RecoverThrough(i: Instant, plan: seq<Entry>, limit: nat, cuts: seq<nat>, retries: nat,
                        proposal: Proposal, ghost x: Namespace) returns (runs: seq<Operation>)
    requires Sane(i) && Good(Strict(0), x, i.ns, i.saved) && SamePaths(plan, i.saved.entries) && 0 < |plan| <= limit
    ensures |runs| == |cuts| + 1 && Chained(i, runs, cuts)
    ensures forall k :: 0 <= k < |runs| ==>
      fresh(runs[k]) && fresh(runs[k].backend) && AllGood(Strict(0), x, runs[k].backend.w.history)
    ensures runs[|cuts|].backend.w.ns == x && !runs[|cuts|].r.head.recoveryRequired
  {
    hide Sound, Recover, Restorable, AllRoll, Interrupted, Own, Closed, Unforged, AllGood, Sane, Good, SamePaths, Stop;
    StrictRecovers(x, i);
    var run, finished, turns := RecoverFrom(i, plan, limit, true, |cuts| == 0, retries, proposal, Some(x));
    SamePathsThrough(plan, i.saved, run.r);
    runs := [run];
    for k := 0 to |cuts|
      invariant |runs| == k + 1 && run == runs[k] && Chained(i, runs, cuts)
      invariant forall m :: 0 <= m < |runs| ==>
        fresh(runs[m]) && fresh(runs[m].backend) && AllGood(Strict(0), x, runs[m].backend.w.history)
      invariant run.Well() && SamePaths(plan, run.r.entries)
      invariant k == |cuts| ==> run.backend.w.ns == x && !run.r.head.recoveryRequired
    {
      NextMoment(run.backend.w, run.r, plan, cuts[k], x);
      var at := Stop(run.backend.w.history, cuts[k]);
      run, finished, turns := RecoverFrom(at, plan, limit, true, k + 1 == |cuts|, retries, proposal, Some(x));
      SamePathsThrough(plan, at.saved, run.r);
      ChainGrows(i, runs, cuts, run);
      runs := runs + [run];
    }
  }

  lemma StrictRecovers(x: Namespace, i: Instant)
    requires Good(Strict(0), x, i.ns, i.saved)
    ensures Interrupted(i.saved) && AllRoll(i.saved) && Recover(i.ns, i.saved) == Some(x)
  {
  }

  lemma SamePathsThrough(plan: seq<Entry>, a: Record, b: Record)
    requires SamePaths(plan, a.entries) && SameJob(a, b)
    ensures SamePaths(plan, b.entries)
  {
  }

  /** Where a run that leads to `x` is stopped, recovery can start again and leads to `x`. */
  lemma NextMoment(w: World, r: Record, plan: seq<Entry>, cut: nat, x: Namespace)
    requires Sound(w, r) && SamePaths(plan, r.entries) && AllGood(Strict(0), x, w.history)
    ensures |w.history| > 0
    ensures
      var i := Stop(w.history, cut);
      && Sane(i) && SamePaths(plan, i.saved.entries) && Interrupted(i.saved) && AllRoll(i.saved)
      && Recover(i.ns, i.saved) == Some(x)
  {
    var k := if cut < |w.history| then cut else |w.history| - 1;
    MomentIsSane(w, r, k);
    assert Good(Strict(0), x, w.history[k].ns, w.history[k].saved);
    SamePathsThrough(plan, r, w.history[k].saved);
  }

  /** Every moment of a run is one that a restart can start from. */
  lemma MomentIsSane(w: World, r: Record, k: nat)
    requires Sound(w, r) && k < |w.history|
    ensures Sane(w.history[k]) && SameJob(r, w.history[k].saved)
  {
  }
}
