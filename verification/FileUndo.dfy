/** Undoing a finished copy: its objects are removed and what they replaced is put back. */
module FileUndo {
  import opened Common
  import opened Namespaces
  import opened UndoSpec
  import opened FileBackend
  import opened FileOperations
  import opened FileRecovery
  import opened CopyRun

  /** What is left to undo, the entries before the index, leads back to `x`. */
  ghost predicate Undoing(x: Namespace, ns: Namespace, r: Record) {
    var k := r.head.entryIndex;
    && r.head.operation.Copy? && FinishedUpTo(r.entries, k)
    && UndoPrefix(Some(ns), r.entries, k) == Some(x)
  }

  /** The record with entry `k` changed and the index moved to it. */
  function Retreated(r: Record, k: nat, e: Entry): Record
    requires k < |r.entries|
  {
    WithHead(WithEntry(r, k, e), r.head.(entryIndex := k))
  }

  /** Undoing the entry under the index has a result, and going on from there still leads back to `x`. */
  lemma UndoingStep(x: Namespace, ns: Namespace, r: Record, e: Entry)
    requires Undoing(x, ns, r) && r.head.entryIndex != 0
    ensures UndoEntry(ns, r.entries[r.head.entryIndex - 1]).Some?
    ensures
      var k := r.head.entryIndex - 1;
      Undoing(x, UndoEntry(ns, r.entries[k]).value, Retreated(r, k, e))
  {
    hide UndoEntry, Finished;
    var k := r.head.entryIndex - 1;
    if UndoEntry(ns, r.entries[k]).None? { NoneStaysNone(r.entries, k); }
    var y, r' := UndoEntry(ns, r.entries[k]).value, Retreated(r, k, e);
    assert r'.entries[..k] == r.entries[..k];
    PrefixOnly(Some(y), r.entries, r'.entries, k);
    SkippedPrefix(r.entries, r'.entries, k);
    assert FinishedUpTo(r.entries, k);
  }

  /** The entry's own object stands at its destination and can be removed. */
  predicate Removable(ns: Namespace, e: Entry) {
    e.task.dest in ns && SameObject(ns[e.task.dest].id, e.objectId) &&
      RemoveNode(ns, e.task.dest, e.task.kind.Directory?).Some?
  }

  /** Removes the entry's own object, as the durable record announces. */
  method RemoveAnnounced(op: Operation, k: nat) returns (status: Status)
    requires op.Well() && op.r.head.operation.Copy? && k < |op.r.entries| && op.r.entries[k].created
    requires op.backend.w.saved == op.r
    modifies op.backend`w
    ensures op.Well()
    ensures op.backend.quiet && status == Ok ==>
      Removable(old(op.backend.w.ns), op.r.entries[k]) &&
        op.backend.w.ns == old(op.backend.w.ns) - {op.r.entries[k].task.dest}
    ensures op.backend.quiet && op.backend.reliable && Removable(old(op.backend.w.ns), op.r.entries[k]) ==> status == Ok
  {
    var e := op.r.entries[k];
    ghost var w0 := op.backend.w;
    ghost var done, deed;
    status, done, deed := op.backend.RemoveExpected(e.task.dest, e.task.kind.Directory?, e.objectId);
    if done { SlotRemovalHarmless(w0, op.r, false, k, deed); }
  }

  /** Announces the removal of the entry's own object, removes it and syncs. */
  method RemoveOwn(op: Operation, k: nat) returns (res: Result)
    requires op.Well() && op.r.head.operation.Copy? && k < |op.r.entries| && op.r.entries[k].created
    modifies op.backend`w
    ensures op.Well()
    ensures op.backend.quiet && res == OK ==>
      Removable(old(op.backend.w.ns), op.r.entries[k]) &&
        op.backend.w.ns == old(op.backend.w.ns) - {op.r.entries[k].task.dest}
    ensures op.backend.quiet && op.backend.reliable && Removable(old(op.backend.w.ns), op.r.entries[k]) ==> res == OK
    ensures res != InProgress && res != Completed
  {
    hide SameTasks, Removable, Own, Harmless, Lawful, Restorable;
    var ok := op.Checkpoint(None);
    if !ok {
      res := IoFailed;
    } else {
      var status := RemoveAnnounced(op, k);
      if status == Ok { status := op.Touch(); }
      if status != Ok {
        res := ResultOf(status);
      } else {
        ok := op.Checkpoint(None);
        res := if ok then OK else IoFailed;
      }
    }
  }

  /** Removes the entry's own object if it is still there. */
  method ClearDestination(op: Operation, k: nat, destState: int) returns (res: Result)
    requires op.Well() && op.r.head.operation.Copy? && k < |op.r.entries| && op.r.entries[k].created
    requires op.backend.quiet ==> destState == (if op.r.entries[k].task.dest in op.backend.w.ns then 1 else 0)
    modifies op`r, op.backend`w
    ensures op.Well() && k < |op.r.entries|
    ensures op.r == WithEntry(old(op.r), k, old(op.r.entries[k]).(replacement := op.r.entries[k].replacement))
    ensures op.r.entries[k].replacement.NotReplacing? == old(op.r.entries[k]).replacement.NotReplacing?
    ensures op.backend.quiet && res == OK ==> op.backend.w.ns == old(op.backend.w.ns) - {op.r.entries[k].task.dest}
    ensures (op.backend.quiet && op.backend.reliable &&
             (op.r.entries[k].task.dest in old(op.backend.w.ns) ==>
               Removable(old(op.backend.w.ns), old(op.r.entries[k])))) ==>
      res == OK
    ensures res != InProgress && res != Completed
  {
    WithEntryTwice(op.r, k);
    hide SameTasks, Own, Harmless, Lawful, NoChildren;
    res := OK;
    var e := op.r.entries[k];
    if destState == 1 {
      var same := op.HoldsObject(e.task.dest, e.objectId);
      res := Conflicted;
      if same {
        if !e.replacement.NotReplacing? {
          OwnsEntry(op.backend.w, op.r, k);
          EntryKeepsSound(op.backend.w, op.r, k, e.(replacement := UndoRemoveInProgress));
          op.r := WithEntry(op.r, k, e.(replacement := UndoRemoveInProgress));
        }
        res := RemoveOwn(op, k);
      }
    }
  }

  /** Renames what the entry replaced back to the destination, as the durable record announces. */
  method RenameReplaced(op: Operation, k: nat) returns (status: Status)
    requires op.Well() && op.r.head.operation.Copy? && k < |op.r.entries| && op.backend.w.saved == op.r
    requires !op.r.entries[k].replacement.NotReplacing?
    modifies op.backend`w
    ensures op.Well()
    ensures
      var ns, e := old(op.backend.w.ns), op.r.entries[k];
      && (op.backend.quiet && status == Ok ==>
            CanMove(ns, e.backup, e.task.dest) && op.backend.w.ns == Moved(ns, e.backup, e.task.dest))
      && ((op.backend.quiet && op.backend.reliable && CanMove(ns, e.backup, e.task.dest) &&
           SameObject(ns[e.backup].id, e.backupId)) ==> status == Ok)
  {
    hide SameTasks, Moved, CanMove;
    var e := op.r.entries[k];
    ghost var w0 := op.backend.w;
    ghost var done, deed;
    status, done, deed := op.backend.RenameExpected(e.backup, e.task.dest, e.backupId);
    if done { RenameHarmless(w0, op.r, k, deed); }
  }

  /** Brings back what the entry replaced. */
  method PutBack(op: Operation, k: nat) returns (res: Result)
    requires op.Well() && op.r.head.operation.Copy? && k < |op.r.entries|
    requires op.r.entries[k].replacement.UndoRestoreInProgress?
    modifies op.backend`w
    ensures op.Well()
    ensures op.backend.quiet && res == OK && op.r.entries[k].task.dest !in old(op.backend.w.ns) ==>
      CanMove(old(op.backend.w.ns), op.r.entries[k].backup, op.r.entries[k].task.dest) &&
      op.backend.w.ns == Moved(old(op.backend.w.ns), op.r.entries[k].backup, op.r.entries[k].task.dest)
    ensures (op.backend.quiet && op.backend.reliable && op.r.entries[k].task.dest !in old(op.backend.w.ns) &&
             CanMove(old(op.backend.w.ns), op.r.entries[k].backup, op.r.entries[k].task.dest) &&
             SameObject(old(op.backend.w.ns)[op.r.entries[k].backup].id, op.r.entries[k].backupId)) ==>
      res == OK
    ensures res != InProgress && res != Completed
  {
    hide Sound, Moved, Recover, Restorable, AllGood, AllRoll;
    var e := op.r.entries[k];
    var backupState := op.StateOf(e.backup);
    var destState := op.StateOf(e.task.dest);
    if backupState < 0 || destState < 0 {
      res := IoFailed;
    } else if backupState == 1 && destState == 0 {
      var same := op.HoldsObject(e.backup, e.backupId);
      res := Conflicted;
      if same {
        var ok := op.Checkpoint(None);
        res := IoFailed;
        if ok {
          var status := RenameReplaced(op, k);
          res := if status == Ok then OK else ResultOf(status);
        }
      }
    } else if backupState == 0 && destState == 1 {
      var same := op.HoldsObject(e.task.dest, e.backupId);
      res := if same then OK else Conflicted;
    } else {
      res := Conflicted;
    }
    if res == OK {
      var status := op.Touch();
      if status != Ok { res := ResultOf(status); }
    }
  }

  /** What undoing a finished entry comes to. */
  lemma UndoneDone(ns: Namespace, e: Entry)
    requires Done(e) && UndoEntry(ns, e).Some?
    ensures e.task.dest in ns ==> Removable(ns, e)
    ensures e.replacement.NotReplacing? ==> UndoEntry(ns, e) == Some(ns - {e.task.dest})
    ensures !e.replacement.NotReplacing? ==>
      && CanMove(ns - {e.task.dest}, e.backup, e.task.dest) && SameObject((ns - {e.task.dest})[e.backup].id, e.backupId)
      && UndoEntry(ns, e) == Some(Moved(ns - {e.task.dest}, e.backup, e.task.dest))
  {
    if e.task.dest !in ns { assert ns - {e.task.dest} == ns; }
    hide SameTasks, Moved;
  }

  /** The entry after its undo. */
  function Undone(e: Entry): Entry { Forgotten(e.(created := false, objectId := NO_IDENTITY)) }

  /** Undoes an entry that replaced something: remove, then put back. */
  method UndoReplacing(op: Operation, k: nat, destState: int) returns (res: Result)
    requires op.Well() && op.r.head.operation.Copy? && k < |op.r.entries| && op.r.entries[k].created
    requires !op.r.entries[k].replacement.NotReplacing?
    requires op.backend.quiet ==> destState == (if op.r.entries[k].task.dest in op.backend.w.ns then 1 else 0)
    modifies op`r, op.backend`w
    ensures op.Well() && k < |op.r.entries|
    ensures op.r == WithEntry(old(op.r), k, old(op.r.entries[k]).(replacement := op.r.entries[k].replacement))
    ensures (op.backend.quiet && Done(old(op.r.entries[k])) &&
             UndoEntry(old(op.backend.w.ns), old(op.r.entries[k])).Some?) ==>
      && (res == OK ==> UndoEntry(old(op.backend.w.ns), old(op.r.entries[k])) == Some(op.backend.w.ns))
      && (op.backend.reliable ==> res == OK)
    ensures res != InProgress && res != Completed
  {
    hide UndoEntry, Sound, Removable, Moved, CanMove, Restorable, AllRoll, AllGood, Recover, EntryOnTop, SameTasks;
    ghost var ns0, e0 := op.backend.w.ns, op.r.entries[k];
    WithEntryTwice(op.r, k);
    if Done(e0) && UndoEntry(ns0, e0).Some? { UndoneDone(ns0, e0); }
    res := OK;
    if !op.r.entries[k].replacement.BackupHeld? && !op.r.entries[k].replacement.UndoRemoveInProgress? &&
       !op.r.entries[k].replacement.UndoRestoreInProgress? {
      return Conflicted;
    }
    if !op.r.entries[k].replacement.UndoRestoreInProgress? {
      res := ClearDestination(op, k, destState);
      if res == OK {
        var ok := AnnounceReturn(op, k);
        if !ok { res := IoFailed; }
      }
    }
    if res == OK { res := PutBack(op, k); }
  }

  /** Announces that what the entry replaced is about to return. */
  method AnnounceReturn(op: Operation, k: nat) returns (ok: bool)
    requires op.Well() && op.r.head.operation.Copy? && k < |op.r.entries|
    requires !op.r.entries[k].replacement.NotReplacing?
    modifies op`r, op.backend`w
    ensures op.Well()
    ensures op.r == WithEntry(old(op.r), k, old(op.r.entries[k]).(replacement := UndoRestoreInProgress))
    ensures op.backend.quiet ==> op.backend.w.ns == old(op.backend.w.ns)
    ensures op.backend.reliable ==> ok
  {
    hide Sound, Restorable, AllRoll, AllGood, Recover, EntryOnTop, UndoEntry;
    OwnsEntry(op.backend.w, op.r, k);
    ok := op.AdvanceEntry(k, op.r.entries[k].(replacement := UndoRestoreInProgress), None);
  }

  lemma UndoableEntry(x: Namespace, ns: Namespace, r: Record)
    requires Undoing(x, ns, r) && r.head.entryIndex != 0 && r.entries[r.head.entryIndex - 1].created
    ensures Done(r.entries[r.head.entryIndex - 1]) && UndoEntry(ns, r.entries[r.head.entryIndex - 1]).Some?
  {
    UndoingStep(x, ns, r, r.entries[r.head.entryIndex - 1]);
    assert Finished(r.entries[r.head.entryIndex - 1]);
  }

  /** Undoes the entry under the index. */
  method UndoCreated(op: Operation, ghost x: Option<Namespace>) returns (res: Result)
    requires op.Well() && op.r.head.operation.Copy? && 0 != op.r.head.entryIndex <= |op.r.entries|
    requires op.r.entries[op.r.head.entryIndex - 1].created
    requires x.Some? ==> op.backend.quiet && Undoing(x.value, op.backend.w.ns, op.r)
    modifies op`r, op.backend`w
    ensures op.Well() && op.r.head == old(op.r.head) && |op.r.entries| == |old(op.r.entries)|
    ensures
      var k := op.r.head.entryIndex - 1;
      op.r == WithEntry(old(op.r), k, op.r.entries[k]) && SameTask(old(op.r.entries[k]), op.r.entries[k])
    ensures x.Some? && res == OK ==>
      var k := op.r.head.entryIndex - 1;
      op.r == WithEntry(old(op.r), k, Undone(old(op.r.entries[k]))) &&
      UndoEntry(old(op.backend.w.ns), old(op.r.entries[k])) == Some(op.backend.w.ns)
    ensures x.Some? && op.backend.reliable ==> res == OK
    ensures res != InProgress && res != Completed
  {
    hide UndoEntry, Undoing, Removable, Sound, Restorable, AllRoll, AllGood, Recover, EntryOnTop, SameTasks;
    var k := op.r.head.entryIndex - 1;
    ghost var ns0, e0 := op.backend.w.ns, op.r.entries[k];
    WithEntryTwice(op.r, k);
    if x.Some? {
      UndoableEntry(x.value, ns0, op.r);
      UndoneDone(ns0, e0);
    }
    var destState := op.StateOf(op.r.entries[k].task.dest);
    if destState < 0 {
      res := IoFailed;
    } else {
      if op.r.entries[k].replacement.NotReplacing? {
        res := ClearDestination(op, k, destState);
      } else {
        res := UndoReplacing(op, k, destState);
      }
      if res == OK {
        var ok := Forget(op, k);
        if !ok { res := IoFailed; }
      }
    }
  }

  /** Forgets what the entry created. */
  method Forget(op: Operation, k: nat) returns (ok: bool)
    requires op.Well() && op.r.head.operation.Copy? && k < |op.r.entries|
    modifies op`r, op.backend`w
    ensures op.Well() && op.r == WithEntry(old(op.r), k, Undone(old(op.r.entries[k])))
    ensures op.backend.quiet ==> op.backend.w.ns == old(op.backend.w.ns)
    ensures op.backend.reliable ==> ok
  {
    hide Sound, Restorable, AllRoll, AllGood, Recover, EntryOnTop, UndoEntry;
    OwnsEntry(op.backend.w, op.r, k);
    ok := op.AdvanceEntry(k, Undone(op.r.entries[k]), None);
  }

  lemma RetreatedJob(r0: Record, r: Record, k: nat, h: Header)
    requires k < |r0.entries| == |r.entries| && r == WithEntry(r0, k, r.entries[k])
    requires SameTask(r0.entries[k], r.entries[k])
    requires h.operation == r0.head.operation && h.policy == r0.head.policy
    ensures SameJob(r0, r) && SameJob(r0, WithHead(r, h))
  {
  }

  /** One pump of an undo. */
  method PumpUndo(op: Operation, ghost x: Option<Namespace>) returns (res: Result)
    requires op.Well() && op.r.head.operation.Copy?
    requires x.Some? ==> op.backend.quiet && Undoing(x.value, op.backend.w.ns, op.r)
    modifies op`r, op.backend`w
    ensures op.Well() && op.r.head.operation.Copy? && SameJob(old(op.r), op.r)
    ensures res != Completed ==>
      op.r.head.active == old(op.r.head.active) && op.r.head.undoActive == old(op.r.head.undoActive)
    ensures res == Completed ==> !op.r.head.active && !op.r.head.undoActive && op.r.head.entryIndex == 0
    ensures res == InProgress ==> old(op.r.head.entryIndex) == op.r.head.entryIndex + 1
    ensures x.Some? && res == InProgress ==> Undoing(x.value, op.backend.w.ns, op.r)
    ensures x.Some? && res == Completed ==> op.backend.w.ns == x.value
    ensures x.Some? && op.backend.reliable ==> res == InProgress || res == Completed
  {
    if op.r.head.entryIndex == 0 {
      op.SetHead(op.r.head.(active := false, undoActive := false), None);
      res := Completed;
    } else {
      res := RetreatEntry(op, x);
    }
  }

  /** A skipped or never created entry leaves nothing to undo. */
  lemma PassedOver(x: Namespace, ns: Namespace, r: Record)
    requires Undoing(x, ns, r) && r.head.entryIndex != 0
    requires r.entries[r.head.entryIndex - 1].skip || !r.entries[r.head.entryIndex - 1].created
    ensures UndoEntry(ns, r.entries[r.head.entryIndex - 1]) == Some(ns)
  {
    assert Finished(r.entries[r.head.entryIndex - 1]);
  }

  /** Undoes the entry under the index, or passes over it, and moves the index down. */
  method RetreatEntry(op: Operation, ghost x: Option<Namespace>) returns (res: Result)
    requires op.Well() && op.r.head.operation.Copy?
    requires 0 != op.r.head.entryIndex <= |op.r.entries| && op.r.head.rollbackIndex <= |op.r.entries|
    requires x.Some? ==> op.backend.quiet && Undoing(x.value, op.backend.w.ns, op.r)
    modifies op`r, op.backend`w
    ensures op.Well() && op.r.head.operation.Copy? && SameJob(old(op.r), op.r) && res != Completed
    ensures op.r.head == old(op.r.head).(entryIndex := op.r.head.entryIndex)
    ensures res == InProgress ==> old(op.r.head.entryIndex) == op.r.head.entryIndex + 1
    ensures x.Some? && res == InProgress ==> Undoing(x.value, op.backend.w.ns, op.r)
    ensures x.Some? && op.backend.reliable ==> res == InProgress
  {
    hide Undoing, UndoEntry, Sound, Restorable, AllRoll, AllGood, Recover, SameJob;
    var k := op.r.head.entryIndex - 1;
    var e := op.r.entries[k];
    ghost var r0 := op.r;
    WithEntryTwice(op.r, k);
    var pass := e.skip || !e.created;
    if x.Some? {
      UndoingStep(x.value, op.backend.w.ns, op.r, if pass then e else Undone(e));
      if pass { PassedOver(x.value, op.backend.w.ns, op.r); }
    }
    res := OK;
    if !pass { res := UndoCreated(op, x); }
    RetreatedJob(r0, op.r, k, op.r.head.(entryIndex := k));
    if res == OK {
      op.SetHead(op.r.head.(entryIndex := k), None);
      res := InProgress;
    }
  }
}
