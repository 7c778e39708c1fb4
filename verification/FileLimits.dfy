/** Where rolling back an entry is not exact, and exactly when it is. */
module FileLimits {
  import opened Common
  import opened Namespaces
  import opened UndoSpec
  import opened ForwardSpec
  import opened FileBackend
  import opened FileOperations

  /** Announcing an object by its token alone, with its destination free, keeps what rolling back
      would give exactly when nothing was displaced: the rollback forgets the announcement and
      steps past the entry without looking at its replacement. */
  lemma AnnouncementKeeps(ns: Namespace, e: Entry, token: Token)
    requires Closed(ns) && Underway(e) && e.task.dest !in ns && UndoEntry(ns, e).Some? && token != 0
    ensures UndoEntry(ns, e.(objectId := TokenOnly(token))) == UndoEntry(ns, e) <==> e.replacement.NotReplacing?
  {
    if !e.replacement.NotReplacing? {
      MovedEnds(ns, e.backup, e.task.dest);
      assert e.task.dest in UndoEntry(ns, e).value;
    }
  }

  /** So a crash after such an announcement strands the displaced object at its backup path. */
  lemma AnnouncementStrands(start: Namespace, held: Entry, token: Token)
    requires Closed(start) && Underway(held) && held.replacement.BackupHeld? && token != 0
    requires CanMove(start, held.task.dest, held.backup) && SameObject(start[held.task.dest].id, held.backupId)
    ensures
      var ns := Moved(start, held.task.dest, held.backup);
      && UndoEntry(ns, held) == Some(start)
      && UndoEntry(ns, held.(objectId := TokenOnly(token))) == Some(ns) && ns != start
  {
    DisplacedUndone(start, held);
    hide Moved, Closed, CanMove;
  }

  /** The entry the rollback comes to next. */
  ghost function Current(r: Record): Entry
    requires 0 != r.head.rollbackIndex <= |r.entries|
  {
    r.entries[r.head.rollbackIndex - 1]
  }

  /** That is what the code does: coming to an announced object that is absent, the rollback leaves the
      namespace alone and steps past the entry, with whatever it displaced still at its backup path. */
  method PassesAnnouncement(op: Operation) returns (step: int)
    requires op.Well() && op.backend.quiet && op.backend.reliable && op.r.head.operation.Copy? && !op.r.tempCreated
    requires 0 != op.r.head.rollbackIndex <= |op.r.entries|
    requires !Current(op.r).created && Current(op.r).objectId.HasToken() && Current(op.r).task.dest !in op.backend.w.ns
    modifies op`r, op`sourceHandle, op`tempHandle, op`fileOpen, op.backend`w
    ensures op.Well() && step == 1 && op.backend.w.ns == old(op.backend.w.ns)
    ensures UndoEntry(old(op.backend.w.ns), old(Current(op.r))) == Some(op.backend.w.ns)
    ensures op.r == Stepped(old(op.r), old(Current(op.r)).(objectId := NO_IDENTITY), true)
  {
    hide Sound, LimitTurn, Restorable, UndoEntry;
    CopyRestores(op.backend.w, op.r);
    OwnsEntry(op.backend.w, op.r, op.r.head.rollbackIndex - 1);
    ghost var r0, ns := op.r, op.backend.w.ns;
    step := op.RollbackStep(None);
    AbsentIsPassed(ns, r0, op.backend.w.ns, op.r, step);
  }

  lemma CopyRestores(w: World, r: Record)
    requires Sound(w, r) && r.head.operation.Copy?
    ensures Restorable(r)
  {
  }

  lemma AbsentIsPassed(ns: Namespace, r: Record, ns': Namespace, r': Record, step: int)
    requires 0 != r.head.rollbackIndex <= |r.entries| && LimitTurn(ns, r, ns', r', step)
    requires !Current(r).created && !Current(r).applied && Current(r).objectId.HasToken()
    requires Current(r).task.dest !in ns
    ensures step == 1 && ns' == ns && r' == Stepped(r, Current(r).(objectId := NO_IDENTITY), true)
    ensures UndoEntry(ns, Current(r)) == Some(ns')
  {
  }

  /** A moved object at its destination comes home exactly when it carries no token and its record
      is not waiting for a directory sync. With a token, the rollback takes it for an object of its
      own making; waiting for a sync, it takes the forward rename for its own. */
  lemma ComesHome(ns: Namespace, e: Entry)
    requires Closed(ns) && e.applied && !e.created && e.replacement.NotReplacing?
    requires CanMove(ns, e.task.dest, e.task.source) && SameObject(ns[e.task.dest].id, e.objectId)
    requires e.cleanup.CleanupNone? || e.cleanup.RenameInProgress? || e.cleanup.RenameSyncPending?
    ensures UndoEntry(ns, e) == Some(Moved(ns, e.task.dest, e.task.source)) <==>
      !e.objectId.HasToken() && !e.cleanup.RenameSyncPending?
  {
    MovedEnds(ns, e.task.dest, e.task.source);
    hide Moved;
    assert e.task.source !in ns;
    assert e.task.source !in ns - {e.task.dest};
  }

  /** The object was moved, stands at its destination, carries a token and can be removed. */
  predicate MarkedAtDestination(ns: Namespace, e: Entry) {
    && e.applied && !e.created && e.replacement.NotReplacing? && e.cleanup.CleanupNone? && e.objectId.HasToken()
    && StandsAt(ns, e) && RemoveNode(ns, e.task.dest, e.task.kind.Directory?).Some?
  }

  /** A marked file that was moved is deleted by the rollback. */
  lemma MarkedIsRemoved(ns: Namespace, e: Entry)
    requires MarkedAtDestination(ns, e)
    ensures UndoEntry(ns, e) == Some(ns - {e.task.dest})
  {
  }

  /** And so does the code: it adopts the marked object in one turn and removes it in the next, which
      then fails because what is left of the record could not be restored. */
  method RemovesMarked(op: Operation) returns (step: int)
    requires op.Well() && op.backend.quiet && op.backend.reliable && !op.r.head.operation.Copy? && Restorable(op.r)
    requires 0 != op.r.head.rollbackIndex <= |op.r.entries|
    requires MarkedAtDestination(op.backend.w.ns, Current(op.r))
    modifies op`r, op`sourceHandle, op`tempHandle, op`fileOpen, op.backend`w
    ensures op.Well() && step == -1 && SamePlan(old(op.r), op.r)
    ensures op.backend.w.ns == old(op.backend.w.ns) - {old(Current(op.r)).task.dest}
    ensures UndoEntry(old(op.backend.w.ns), old(Current(op.r))) == Some(op.backend.w.ns)
  {
    hide Sound, LimitTurn, Restorable, RemoveNode, UndoEntry;
    MarkedIsRemoved(op.backend.w.ns, Current(op.r));
    TempOfCopy(op.backend.w, op.r);
    ghost var r0, ns := op.r, op.backend.w.ns;
    step := op.RollbackStep(None);
    MarkedIsAdopted(ns, r0, op.backend.w.ns, op.r, step);
    ghost var r1 := op.r;
    step := op.RollbackStep(None);
    AdoptedIsRemoved(ns, r1, op.backend.w.ns, op.r, step);
  }

  lemma MarkedIsAdopted(ns: Namespace, r: Record, ns': Namespace, r': Record, step: int)
    requires 0 != r.head.rollbackIndex <= |r.entries| && MarkedAtDestination(ns, Current(r)) && Restorable(r)
    requires LimitTurn(ns, r, ns', r', step)
    ensures ns' == ns && r' == WithEntry(r, r.head.rollbackIndex - 1, Current(r).(created := true))
    ensures Restorable(r') && Deletable(ns, r', false, r'.head.rollbackIndex - 1)
  {
  }

  lemma AdoptedIsRemoved(ns: Namespace, r: Record, ns': Namespace, r': Record, step: int)
    requires 0 != r.head.rollbackIndex <= |r.entries| && Current(r).created && Current(r).applied
    requires Current(r).cleanup.CleanupNone? && Deletable(ns, r, false, r.head.rollbackIndex - 1)
    requires LimitTurn(ns, r, ns', r', step)
    ensures step == -1 && ns' == ns - {Current(r).task.dest}
  {
  }

  /** A moved object in the window of its forward rename stays at its destination: the code takes the
      pending sync for that of the rename home and forgets the move. */
  method LeavesAtDestination(op: Operation) returns (step: int)
    requires op.Well() && op.backend.quiet && op.backend.reliable && !op.r.head.operation.Copy? && Restorable(op.r)
    requires 0 != op.r.head.rollbackIndex <= |op.r.entries|
    requires
      var e := Current(op.r);
      e.applied && !e.created && !e.objectId.HasToken() && e.objectId.Valid() && e.cleanup.RenameSyncPending?
    modifies op`r, op`sourceHandle, op`tempHandle, op`fileOpen, op.backend`w
    ensures op.Well() && step == 1 && op.backend.w.ns == old(op.backend.w.ns)
    ensures UndoEntry(old(op.backend.w.ns), old(Current(op.r))) == Some(op.backend.w.ns)
    ensures op.r == Stepped(old(op.r), Home(old(Current(op.r))), true)
  {
    hide Sound, LimitTurn, Restorable, UndoEntry;
    TempOfCopy(op.backend.w, op.r);
    ghost var r0, ns := op.r, op.backend.w.ns;
    step := op.RollbackStep(None);
    PendingIsForgotten(ns, r0, op.backend.w.ns, op.r, step);
  }

  lemma PendingIsForgotten(ns: Namespace, r: Record, ns': Namespace, r': Record, step: int)
    requires 0 != r.head.rollbackIndex <= |r.entries| && LimitTurn(ns, r, ns', r', step)
    requires !Current(r).created && Current(r).applied && !Current(r).objectId.HasToken() && Current(r).objectId.Valid()
    requires Current(r).cleanup.RenameSyncPending?
    ensures step == 1 && ns' == ns && r' == Stepped(r, Home(Current(r)), true) && UndoEntry(ns, Current(r)) == Some(ns')
  {
  }
}
