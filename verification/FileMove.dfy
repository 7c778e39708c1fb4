/** Moving, trashing and restoring: the operations that rename. */
module FileMove {
  import opened Common
  import opened Namespaces
  import opened UndoSpec
  import opened FileBackend
  import opened FileOperations
  import opened FileCopy
  import opened CopyRun

  function Leaving(e: Entry, id: Identity): Entry {
    e.(objectId := id, applied := true, cleanup := RenameInProgress)
  }

  /** Announcing the rename changes nothing yet: the object is still at its source. */
  lemma LeavingStep(ns: Namespace, e: Entry, id: Identity)
    requires Pristine(e) && e.task.dest !in ns && e.task.source in ns && SameObject(ns[e.task.source].id, id)
    requires !id.HasToken()
    ensures UndoEntry(ns, Leaving(e, id)) == UndoEntry(ns, e) && OnlyMoved(Leaving(e, id))
  {
  }

  /** Before and after the rename, rolling back leaves the object at its source. */
  lemma LeftStep(ns: Namespace, r: Record, j: nat)
    requires Closed(ns) && EntryOnTop(r, j) && OnlyMoved(r.entries[j]) && r.entries[j].objectId.Valid()
    requires r.entries[j].cleanup.RenameInProgress?
    requires CanMove(ns, r.entries[j].task.source, r.entries[j].task.dest)
    requires SameObject(ns[r.entries[j].task.source].id, r.entries[j].objectId)
    ensures
      var ns' := Moved(ns, r.entries[j].task.source, r.entries[j].task.dest);
      && Recover(ns', r) == Recover(ns, r)
      && r.entries[j].task.source !in ns' && r.entries[j].task.dest in ns'
  {
    var e := r.entries[j];
    var ns' := Moved(ns, e.task.source, e.task.dest);
    LeftUndone(ns, e);
    WithEntryTwice(r, j);
    hide Moved, Closed, UndoEntry, Recover;
    EntryStep(ns, r, ns', j, e);
  }

  lemma LeftUndone(ns: Namespace, e: Entry)
    requires Closed(ns) && OnlyMoved(e) && e.objectId.Valid() && e.cleanup.RenameInProgress?
    requires CanMove(ns, e.task.source, e.task.dest) && SameObject(ns[e.task.source].id, e.objectId)
    ensures
      var ns' := Moved(ns, e.task.source, e.task.dest);
      && UndoEntry(ns, e) == Some(ns) == UndoEntry(ns', e)
      && e.task.source !in ns' && e.task.dest in ns'
  {
    hide Moved, Closed;
    var ns' := Moved(ns, e.task.source, e.task.dest);
    assert CanMove(ns', e.task.dest, e.task.source) && Moved(ns', e.task.dest, e.task.source) == ns by {
      MoveThereAndBack(ns, e.task.source, e.task.dest);
    }
    assert e.task.source !in ns' && ns'[e.task.dest].id == e.objectId by {
      MovedEnds(ns, e.task.source, e.task.dest);
    }
  }

  /** Once the sync is done, the move counts as complete. */
  lemma ArrivedStep(ns: Namespace, e: Entry)
    requires OnlyMoved(e) && e.cleanup.RenameInProgress?
    ensures UndoEntry(ns, e.(cleanup := CleanupNone)) == UndoEntry(ns, e)
  {
  }

  /** Renames the object to its destination, as the durable record announces. */
  method RenameThere(op: Operation, i: nat, ghost x: Option<Namespace>) returns (status: Status)
    requires op.Well() && i < |op.r.entries| && !op.r.head.operation.Copy?
    requires op.backend.w.saved == op.r && op.r.entries[i].applied
    requires Follows(op.backend.quiet, op.claim, x, op.backend.w, op.r)
    requires x.Some? ==>
      && EntryOnTop(op.r, i) && OnlyMoved(op.r.entries[i]) && op.r.entries[i].objectId.Valid()
      && op.r.entries[i].cleanup.RenameInProgress?
    modifies op.backend`w
    ensures op.Well()
    ensures Follows(op.backend.quiet, op.claim, x, op.backend.w, op.r)
    ensures x.Some? && status == Ok ==>
      op.r.entries[i].task.source !in op.backend.w.ns && op.r.entries[i].task.dest in op.backend.w.ns
    ensures
      var ns, task := old(op.backend.w.ns), op.r.entries[i].task;
      && (op.backend.quiet && status == Ok ==>
            && CanMove(ns, task.source, task.dest) && op.backend.w.ns == Moved(ns, task.source, task.dest)
            && LastIs(op.backend.w.history, op.backend.w.ns, op.r))
      && ((op.backend.quiet && op.backend.reliable && CanMove(ns, task.source, task.dest) &&
           SameObject(ns[task.source].id, op.r.entries[i].objectId)) ==> status == Ok)
  {
    hide Sound, Recover, EntryOnTop, UndoEntry, Moved, Lawful, Harmless, Effect, Restorable, AllRoll, Closed;
    ghost var w0 := op.backend.w;
    var task, id := op.r.entries[i].task, op.r.entries[i].objectId;
    SoundIsLawful(w0, op.r);
    if x.Some? && CanMove(w0.ns, task.source, task.dest) && SameObject(w0.ns[task.source].id, id) {
      LeftStep(w0.ns, op.r, i);
    }
    ghost var done, deed;
    status, done, deed := op.backend.RenameExpected(task.source, task.dest, id);
    if done { RenameHarmless(w0, op.r, i, deed); } else { NothingDone(w0, op.r); }
    ChangedSound(w0, op.backend.w, op.r);
  }

  /** What became of tracking: it is kept, the object of this entry carried a token, or a failure
      arose in the window, with this namespace and this record; and how many moments there were before. */
  datatype Loss =
    | Kept
    | Marked(moment: nat, entry: nat, id: Identity)
    | Window(moment: nat, ns: Namespace, record: Record)

  /** The object that entry `j` is to move stands at its source and carries a token, and its
      destination is free. */
  predicate MarkedSource(entries: seq<Entry>, ns: Namespace, j: nat, id: Identity) {
    && j < |entries| && id.HasToken()
    && entries[j].task.source in ns && ns[entries[j].task.source].id == id && entries[j].task.dest !in ns
  }

  /** The last moment has this namespace and this record. */
  ghost predicate LastIs(history: seq<Instant>, ns: Namespace, r: Record) {
    |history| > 0 && history[|history| - 1].ns == ns && history[|history| - 1].saved == r
  }

  /** Up to the loss every moment led to `x`. In the window the last of them had the namespace of the
      loss, and the record of the loss or the one from before the window. */
  ghost predicate Led(claim: Claim, x: Namespace, past: seq<Instant>, loss: Loss)
    requires !loss.Kept?
  {
    && loss.moment <= |past| && AllGood(claim, x, past[..loss.moment])
    && (loss.Window? ==>
          && Windowed(x, loss.ns, loss.record) && EntryOnTop(loss.record, loss.record.head.entryIndex)
          && AllRoll(loss.record)
          && (LastIs(past[..loss.moment], loss.ns, loss.record) ||
              LastIs(past[..loss.moment], loss.ns, Unwindowed(loss.record))))
  }

  /** The reasons for a loss: a token on the object to be moved, or a call that failed in the window of
      this job. */
  ghost predicate Accounted(claim: Claim, x: Namespace, r: Record, before: Namespace, reliable: bool,
      past: seq<Instant>, loss: Loss) {
    && (!loss.Kept? ==> Led(claim, x, past, loss))
    && (loss.Marked? ==> MarkedSource(r.entries, before, loss.entry, loss.id))
    && (loss.Window? ==> SameJob(r, loss.record) && !reliable)
  }

  /** What the rollback leads to: the start, or after a failure in the window what undoing the record of
      that moment gives, if it gives anything. */
  ghost function Aim(x: Option<Namespace>, loss: Loss): Option<Namespace> {
    match loss
    case Kept => x
    case Marked(_, _, _) => None
    case Window(_, ns, record) => if x.Some? then Recover(ns, record) else None
  }

  /** The moment of a failure in the window. */
  ghost predicate AtWindow(claim: Claim, x: Namespace, quiet: bool, w: World, r: Record, loss: Loss)
    requires loss.Window?
  {
    && quiet && loss.ns == w.ns && loss.record == r && loss.moment == |w.history| && w.past == w.history
    && Interrupted(r) && Restorable(r) && AllRoll(r) && Led(claim, x, w.past, loss)
  }

  /** Records that the rename is done and syncs both directories, or only the destination's when the
      source lay below it. */
  method EnterWindow(op: Operation, i: nat, ghost x: Option<Namespace>) returns (res: Result)
    requires op.Well() && i == op.r.head.entryIndex < |op.r.entries| && !op.r.head.operation.Copy?
    requires Follows(op.backend.quiet, op.claim, x, op.backend.w, op.r)
    requires x.Some? ==>
      && !op.claim.Strict? && EntryOnTop(op.r, i)
      && OnlyMoved(op.r.entries[i]) && op.r.entries[i].objectId.Valid() && op.r.entries[i].cleanup.RenameInProgress?
      && op.r.entries[i].task.source !in op.backend.w.ns && op.r.entries[i].task.dest in op.backend.w.ns
    modifies op`r, op.backend`w
    ensures op.Well()
    ensures op.r == WithEntry(old(op.r), i, old(op.r.entries[i]).(cleanup := RenameSyncPending))
    ensures Follows(op.backend.quiet, op.claim, x, op.backend.w, old(op.r))
    ensures op.backend.quiet ==> op.backend.w.ns == old(op.backend.w.ns)
    ensures x.Some? ==> Windowed(x.value, op.backend.w.ns, op.r) && Interrupted(op.r) && AllRoll(op.r)
    ensures op.backend.quiet ==>
      || op.backend.w.history == old(op.backend.w.history)
      || LastIs(op.backend.w.history, op.backend.w.ns, op.r)
    ensures res == OK ==> op.backend.w.saved == op.r
    ensures old(Restorable(op.r)) ==> Restorable(op.r) && (op.backend.reliable ==> res == OK)
  {
    hide Recover, Sound, Blocked;
    var e := op.r.entries[i].(cleanup := RenameSyncPending);
    OwnsEntry(op.backend.w, op.r, i);
    EntryKeepsSound(op.backend.w, op.r, i, e);
    WithEntryTwice(op.r, i);
    assert x.Some? ==> Unwindowed(WithEntry(op.r, i, e)) == op.r;
    op.r := WithEntry(op.r, i, e);
    var ok := op.Checkpoint(x);
    res := IoFailed;
    if ok {
      var status := op.Touch();
      if status == Ok && !(e.task.dest <= e.task.source) { status := op.Touch(); }
      res := if status == Ok then OK else ResultOf(status);
    }
  }

  /** Records that the move is complete. */
  method LeaveWindow(op: Operation, i: nat, ghost r0: Record, ghost x: Option<Namespace>) returns (ok: bool)
    requires op.Well() && i < |op.r.entries| && !op.r.head.operation.Copy?
    requires i < |r0.entries| && op.r == WithEntry(r0, i, r0.entries[i].(cleanup := RenameSyncPending))
    requires Follows(op.backend.quiet, op.claim, x, op.backend.w, r0)
    requires x.Some? ==> EntryOnTop(r0, i) && OnlyMoved(r0.entries[i]) && r0.entries[i].cleanup.RenameInProgress?
    modifies op`r, op.backend`w
    ensures op.Well() && op.r == WithEntry(r0, i, r0.entries[i].(cleanup := CleanupNone))
    ensures Follows(op.backend.quiet, op.claim, x, op.backend.w, op.r)
    ensures op.backend.quiet ==> op.backend.w.ns == old(op.backend.w.ns)
    ensures x.Some? ==> EntryOnTop(op.r, i)
    ensures ok ==> op.backend.w.saved == op.r
    ensures op.backend.reliable && old(Restorable(op.r)) ==> ok
  {
    hide Recover, Sound, Blocked, EntryOnTop, UndoEntry;
    ghost var e := r0.entries[i].(cleanup := CleanupNone);
    WithEntryTwice(r0, i);
    if x.Some? {
      ArrivedStep(op.backend.w.ns, r0.entries[i]);
      EntryStep(op.backend.w.ns, r0, op.backend.w.ns, i, e);
    }
    OwnsEntry(op.backend.w, op.r, i);
    EntryKeepsSound(op.backend.w, op.r, i, op.r.entries[i].(cleanup := CleanupNone));
    op.r := WithEntry(op.r, i, op.r.entries[i].(cleanup := CleanupNone));
    ok := op.Checkpoint(x);
  }

  /** Everything after the rename. A failure before the syncs are done leaves the record in the
      window. */
  method Arrive(op: Operation, i: nat, ghost x: Option<Namespace>) returns (res: Result, ghost loss: Loss)
    requires op.Well() && i == op.r.head.entryIndex < |op.r.entries| && !op.r.head.operation.Copy?
    requires Follows(op.backend.quiet, op.claim, x, op.backend.w, op.r)
    requires x.Some? ==>
      && EntryOnTop(op.r, i) && OnlyMoved(op.r.entries[i]) && op.r.entries[i].objectId.Valid()
      && op.r.entries[i].cleanup.RenameInProgress? && !op.claim.Strict?
      && op.r.entries[i].task.source !in op.backend.w.ns && op.r.entries[i].task.dest in op.backend.w.ns
      && LastIs(op.backend.w.history, op.backend.w.ns, op.r)
    modifies op`r, op`past, op.backend`w
    ensures op.Well() && i < |op.r.entries| && old(op.past) <= op.past
    ensures op.r == WithEntry(old(op.r), i, old(op.r.entries[i]).(cleanup := op.r.entries[i].cleanup))
    ensures !loss.Marked? && (res == OK ==> loss.Kept? && op.r.entries[i].cleanup.CleanupNone?)
    ensures loss.Kept? ==> Follows(op.backend.quiet, op.claim, x, op.backend.w, op.r)
    ensures x.Some? && loss.Kept? ==> EntryOnTop(op.r, i)
    ensures x.Some? && loss.Window? ==>
      AtWindow(op.claim, x.value, op.backend.quiet, op.backend.w, op.r, loss) && !op.backend.reliable
    ensures op.backend.quiet ==> op.backend.w.ns == old(op.backend.w.ns)
    ensures x.Some? && op.backend.reliable ==> res == OK
  {
    hide Recover, Sound, Blocked, EntryOnTop, AllGood, InWindow, Windowed, Restorable, AllRoll, Interrupted, AtWindow;
    ghost var r0 := op.r;
    WithEntryTwice(op.r, i);
    loss := Kept;
    res := EnterWindow(op, i, x);
    if res == OK {
      var ok := LeaveWindow(op, i, r0, x);
      if !ok { res := IoFailed; }
    } else {
      op.Remember();
      loss := Window(|op.past|, op.backend.w.ns, op.r);
      if x.Some? { WindowMet(op.claim, x.value, op.backend.w, r0, op.r); }
    }
  }

  /** A failure between entering the window and leaving it. */
  lemma WindowMet(claim: Claim, x: Namespace, w: World, r0: Record, r: Record)
    requires w.past == w.history && AllGood(claim, x, w.history) && Windowed(x, w.ns, r)
    requires Interrupted(r) && Restorable(r) && AllRoll(r)
    requires EntryOnTop(r0, r.head.entryIndex) && r0.entries[r.head.entryIndex].cleanup.RenameInProgress?
    requires OnlyMoved(r0.entries[r.head.entryIndex])
    requires r == WithEntry(r0, r.head.entryIndex, r0.entries[r.head.entryIndex].(cleanup := RenameSyncPending))
    requires LastIs(w.history, w.ns, r0) || LastIs(w.history, w.ns, r)
    ensures AtWindow(claim, x, true, w, r, Window(|w.history|, w.ns, r))
  {
    hide AllGood, Restorable, AllRoll, Recover;
    assert w.past[..|w.history|] == w.history;
    assert Unwindowed(r) == r0 by { WithEntryTwice(r0, r.head.entryIndex); }
  }

  // The pump.

  predicate Arrived(e: Entry) {
    OnlyMoved(e) && e.cleanup.CleanupNone? && e.objectId.Valid()
  }

  /** Entries before the index are moved or skipped, the rest is untouched. */
  ghost predicate MoveForward(r: Record) {
    && r.head.entryIndex <= |r.entries| && PristineFrom(r.entries, r.head.entryIndex)
    && (forall j :: 0 <= j < r.head.entryIndex ==> Pristine(r.entries[j]) || Arrived(r.entries[j]))
  }

  /** What a tracked move keeps while entry `i` is at work. */
  ghost predicate MoveKept(claim: Claim, quiet: bool, x: Option<Namespace>, w: World, r: Record, i: nat, turn: Turn,
      loss: Loss) {
    x.Some? ==>
      && (loss.Kept? ==>
            && Follows(quiet, claim, x, w, r)
            && (turn.Stay? || turn.Advance? ==> EntryOnTop(r, i) && (Pristine(r.entries[i]) || Arrived(r.entries[i]))))
      && (loss.Window? ==> AtWindow(claim, x.value, quiet, w, r, loss))
  }

  /** The object is there under a valid identity without a token and can go to its destination. */
  predicate Movable(ns: Namespace, task: Task) {
    CanMove(ns, task.source, task.dest) && ns[task.source].id.Valid() && !ns[task.source].id.HasToken()
  }

  lemma MovableSaves(ns: Namespace, e: Entry)
    ensures Movable(ns, e.task) ==> e.task.source in ns && ns[e.task.source].id.Valid()
  {
  }

  /** Nothing stands in the way of entry `i`: its destination is taken and may be skipped, or the
      object can be moved. */
  predicate MoveFits(ns: Namespace, r: Record, i: nat)
    requires i < |r.entries|
  {
    if r.entries[i].task.dest in ns then r.head.policy.ConflictSkip?
    else Skipped(r.entries, i) || Movable(ns, r.entries[i].task)
  }

  /** Everything after the announcement: the rename, the syncs and the record of it. */
  method Carry(op: Operation, i: nat, ghost x: Option<Namespace>) returns (turn: Turn, ghost loss: Loss)
    requires op.Well() && i == op.r.head.entryIndex < |op.r.entries| && !op.r.head.operation.Copy?
    requires op.backend.w.saved == op.r && op.r.entries[i].applied
    requires Follows(op.backend.quiet, op.claim, x, op.backend.w, op.r)
    requires x.Some? ==>
      && EntryOnTop(op.r, i) && OnlyMoved(op.r.entries[i]) && op.r.entries[i].objectId.Valid()
      && op.r.entries[i].cleanup.RenameInProgress? && !op.claim.Strict?
    modifies op`r, op`past, op.backend`w
    ensures op.Well() && i < |op.r.entries| && old(op.past) <= op.past
    ensures op.r == WithEntry(old(op.r), i, old(op.r.entries[i]).(cleanup := op.r.entries[i].cleanup))
    ensures !turn.Stay? && !loss.Marked? && (turn.Advance? ==> loss.Kept?)
    ensures MoveKept(op.claim, op.backend.quiet, x, op.backend.w, op.r, i, turn, loss)
    ensures x.Some? && loss.Window? ==> !op.backend.reliable
    ensures
      var ns, e := old(op.backend.w.ns), op.r.entries[i];
      (x.Some? && op.backend.reliable && CanMove(ns, e.task.source, e.task.dest) &&
       SameObject(ns[e.task.source].id, e.objectId)) ==>
        turn.Advance? && op.backend.w.ns == Moved(ns, e.task.source, e.task.dest)
  {
    hide Recover, Sound, Blocked, EntryOnTop, AllGood, AtWindow, UndoEntry, CanMove, Moved, AllRoll, Restorable, LastIs;
    WithEntryTwice(op.r, i);
    loss := Kept;
    var status := RenameThere(op, i, x);
    if status != Ok {
      turn := Fell(ResultOf(status));
    } else {
      var res;
      res, loss := Arrive(op, i, x);
      turn := if res == OK then Advance else Fell(res);
    }
  }

  /** Renames the object of entry `i` to its free destination. */
  method MoveEntry(op: Operation, i: nat, ghost x: Option<Namespace>) returns (turn: Turn, ghost loss: Loss)
    requires op.Well() && i == op.r.head.entryIndex < |op.r.entries| && !op.r.head.operation.Copy?
    requires !op.r.entries[i].created
    requires Follows(op.backend.quiet, op.claim, x, op.backend.w, op.r)
    requires op.backend.quiet ==> op.r.entries[i].task.dest !in op.backend.w.ns
    requires x.Some? ==> EntryOnTop(op.r, i) && Pristine(op.r.entries[i]) && !op.claim.Strict?
    modifies op`r, op`past, op.backend`w
    ensures op.Well() && i < |op.r.entries| && old(op.past) <= op.past
    ensures op.r == WithEntry(old(op.r), i, op.r.entries[i]) && SameTask(old(op.r.entries[i]), op.r.entries[i])
    ensures !turn.Stay? && (turn.Advance? ==> !loss.Window?)
    ensures MoveKept(op.claim, op.backend.quiet, x, op.backend.w, op.r, i, turn, loss)
    ensures x.Some? ==>
      Accounted(old(op.claim), x.value, old(op.r), old(op.backend.w.ns), op.backend.reliable, op.past, loss)
    ensures x.Some? && op.backend.reliable && old(Movable(op.backend.w.ns, op.r.entries[i].task)) ==>
      && turn.Advance? && loss.Kept? && op.r.entries[i].skip == old(op.r.entries[i]).skip
      && op.backend.w.ns == Moved(old(op.backend.w.ns), op.r.entries[i].task.source, op.r.entries[i].task.dest)
  {
    hide Recover, Sound, Blocked, EntryOnTop, AllGood, AtWindow, UndoEntry, CanMove, Moved, AllRoll, Led, SameJob;
    hide Restorable;
    var task := op.r.entries[i].task;
    MovableSaves(op.backend.w.ns, op.r.entries[i]);
    WithEntryTwice(op.r, i);
    loss := Kept;
    var status, id := op.IdentityOf(task.source);
    if status != Ok {
      turn := Fell(ResultOf(status));
    } else if id.HasToken() {
      op.Remember();
      ghost var moment := |op.past|;
      if x.Some? { LedSoFar(op.claim, x.value, op.past, i, id); }
      NoneFollows(op.backend.quiet, op.claim, op.backend.w, op.r);
      ghost var past := op.past;
      turn, loss := Take(op, i, id, None);
      loss := Marked(moment, i, id);
      if x.Some? { LedStays(op.claim, x.value, past, op.past, loss); }
    } else {
      turn, loss := Take(op, i, id, x);
    }
  }

  /** Announces the rename of the object with this identity and carries it out. */
  method Take(op: Operation, i: nat, id: Identity, ghost x: Option<Namespace>) returns (turn: Turn, ghost loss: Loss)
    requires op.Well() && i == op.r.head.entryIndex < |op.r.entries| && !op.r.head.operation.Copy?
    requires !op.r.entries[i].created && id.Valid()
    requires Follows(op.backend.quiet, op.claim, x, op.backend.w, op.r)
    requires op.backend.quiet ==>
      && op.r.entries[i].task.dest !in op.backend.w.ns && op.r.entries[i].task.source in op.backend.w.ns
      && op.backend.w.ns[op.r.entries[i].task.source].id == id
    requires x.Some? ==>
      EntryOnTop(op.r, i) && Pristine(op.r.entries[i]) && !op.claim.Strict? && !id.HasToken()
    modifies op`r, op`past, op.backend`w
    ensures op.Well() && i < |op.r.entries| && old(op.past) <= op.past
    ensures op.r == WithEntry(old(op.r), i, op.r.entries[i]) && SameTask(old(op.r.entries[i]), op.r.entries[i])
    ensures op.r.entries[i].skip == old(op.r.entries[i]).skip
    ensures !turn.Stay? && !loss.Marked? && (turn.Advance? ==> !loss.Window?)
    ensures MoveKept(op.claim, op.backend.quiet, x, op.backend.w, op.r, i, turn, loss)
    ensures x.Some? && loss.Window? ==>
      Led(op.claim, x.value, op.past, loss) && SameJob(old(op.r), loss.record) && !op.backend.reliable
    ensures x.Some? && op.backend.reliable && old(Movable(op.backend.w.ns, op.r.entries[i].task)) ==>
      && turn.Advance? && loss.Kept?
      && op.backend.w.ns == Moved(old(op.backend.w.ns), op.r.entries[i].task.source, op.r.entries[i].task.dest)
  {
    hide Recover, Sound, Blocked, EntryOnTop, AllGood, AtWindow, UndoEntry, CanMove, Moved, AllRoll, Led, SameJob;
    var e := op.r.entries[i];
    ghost var r0 := op.r;
    MovableSaves(op.backend.w.ns, e);
    WithEntryTwice(op.r, i);
    OwnsEntry(op.backend.w, op.r, i);
    if x.Some? { LeavingStep(op.backend.w.ns, e, id); }
    loss := Kept;
    var ok := op.AdvanceEntry(i, Leaving(e, id), x);
    turn := Fell(IoFailed);
    if ok {
      turn, loss := Carry(op, i, x);
      if x.Some? && loss.Window? {
        WindowLed(op.claim, x.value, op.backend.quiet, op.backend.w, r0, op.r, i, loss);
      }
    }
  }

  lemma LedStays(claim: Claim, x: Namespace, a: seq<Instant>, b: seq<Instant>, loss: Loss)
    requires !loss.Kept? && Led(claim, x, a, loss) && a <= b
    ensures Led(claim, x, b, loss)
  {
    hide AllGood, LastIs, Windowed, EntryOnTop, AllRoll;
    assert a[..loss.moment] == b[..loss.moment];
  }

  lemma LedSoFar(claim: Claim, x: Namespace, past: seq<Instant>, i: nat, id: Identity)
    requires AllGood(claim, x, past)
    ensures Led(claim, x, past, Marked(|past|, i, id))
  {
    hide AllGood;
    assert past[..|past|] == past;
  }

  lemma WindowLed(claim: Claim, x: Namespace, quiet: bool, w: World, r0: Record, r: Record, i: nat, loss: Loss)
    requires loss.Window? && AtWindow(claim, x, quiet, w, r, loss)
    requires i < |r0.entries| && i < |r.entries| && r == WithEntry(r0, i, r.entries[i])
    requires SameTask(r0.entries[i], r.entries[i])
    ensures Led(claim, x, w.past, loss) && SameJob(r0, loss.record)
  {
    hide Led, Restorable, AllRoll;
  }

  /** Resolves the conflict at the destination, then moves the object. */
  method BeginMove(op: Operation, i: nat, ghost x: Option<Namespace>) returns (turn: Turn, ghost loss: Loss)
    requires op.Well() && i == op.r.head.entryIndex < |op.r.entries| && !op.r.head.operation.Copy?
    requires !op.r.entries[i].created
    requires Follows(op.backend.quiet, op.claim, x, op.backend.w, op.r)
    requires x.Some? ==>
      EntryOnTop(op.r, i) && Pristine(op.r.entries[i]) && !op.r.head.policy.ConflictReplace? && !op.claim.Strict?
    modifies op`r, op`past, op.backend`w
    ensures op.Well() && i < |op.r.entries| && old(op.past) <= op.past
    ensures op.r == WithEntry(old(op.r), i, op.r.entries[i]) && SameTask(old(op.r.entries[i]), op.r.entries[i])
    ensures !turn.Stay? && (turn.Advance? ==> !loss.Window?)
    ensures MoveKept(op.claim, op.backend.quiet, x, op.backend.w, op.r, i, turn, loss)
    ensures x.Some? ==>
      Accounted(old(op.claim), x.value, old(op.r), old(op.backend.w.ns), op.backend.reliable, op.past, loss)
    ensures SameJob(old(op.r), op.r)
    ensures x.Some? && op.backend.reliable && !op.cancelRequested && old(MoveFits(op.backend.w.ns, op.r, i)) ==>
      && turn.Advance? && loss.Kept? && MovesOn(old(op.backend.w.ns), old(op.r), i, op.backend.w.ns, op.r)
  {
    hide Recover, Sound, Blocked, EntryOnTop, AllGood, AtWindow, Moved, Movable, Led;
    WithEntryTwice(op.r, i);
    ghost var r0 := op.r;
    loss := Kept;
    if op.cancelRequested {
      turn := Fell(Cancelled);
    } else {
      var res := Conflict(op, i, x);
      SkipMark(r0, op.r, i);
      if res != OK {
        turn := Fell(res);
      } else if Skipped(op.r.entries, i) {
        turn := Advance;
      } else {
        ghost var r1 := op.r;
        turn, loss := MoveEntry(op, i, x);
        SkipMark(r1, op.r, i);
      }
    }
  }

  /** Whether entry `i` is skipped depends on nothing of its own but its mark. */
  lemma SkipMark(r0: Record, r: Record, i: nat)
    requires i < |r0.entries| == |r.entries| && r.entries == r0.entries[i := r.entries[i]]
    requires SameTask(r0.entries[i], r.entries[i])
    ensures r0.entries[i].skip == r.entries[i].skip ==> Skipped(r0.entries, i) == Skipped(r.entries, i)
    ensures Skipped(r0.entries, i) && (r0.entries[i].skip ==> r.entries[i].skip) ==> Skipped(r.entries, i)
    ensures Skipped(r.entries, i) ==> r.entries[i].skip || Skipped(r0.entries, i)
  {
    assert forall k :: 0 <= k < i ==> r.entries[k] == r0.entries[k];
  }

  /** What dealing with entry `i` comes to: it is marked when its destination is taken, and its object is
      moved unless the entry is skipped. */
  ghost predicate MovesOn(ns: Namespace, r: Record, i: nat, ns': Namespace, r': Record)
    requires i < |r.entries|
  {
    && |r'.entries| == |r.entries| && r'.entries == r.entries[i := r'.entries[i]]
    && SameTask(r.entries[i], r'.entries[i])
    && r'.entries[i].skip == (r.entries[i].skip || r.entries[i].task.dest in ns)
    && ns' == if Skipped(r'.entries, i) then ns else Moved(ns, r.entries[i].task.source, r.entries[i].task.dest)
  }

  /** Rolls back, tracked or not. */
  method FallMove(op: Operation, result: Result, ghost x: Option<Namespace>) returns (res: Result, step: int)
    requires op.Well()
    requires Follows(op.backend.quiet, op.claim, x, op.backend.w, op.r)
    modifies op`r, op`sourceHandle, op`tempHandle, op`fileOpen, op.backend`w
    ensures op.Well() && -1 <= step < 2 && SameJob(old(op.r), op.r)
    ensures Fallen(x, op.claim, op.backend.quiet, op.backend.w, op.r, step)
  {
    hide Recover, Sound, Blocked, AllGood, Restorable, AllRoll;
    res, step := op.FinishFailure(result, if op.claim.Loose? then None else x);
  }

  /** Passes on to the next entry. */
  method NextMove(op: Operation, i: nat, ghost r0: Record, ghost x: Option<Namespace>)
    requires op.Well() && i == op.r.head.entryIndex < |op.r.entries|
    requires Follows(op.backend.quiet, op.claim, x, op.backend.w, op.r)
    requires x.Some? ==>
      && |r0.entries| == |op.r.entries| && MoveForward(r0) && op.r.head == r0.head
      && op.r.entries == r0.entries[i := op.r.entries[i]] && (Pristine(op.r.entries[i]) || Arrived(op.r.entries[i]))
    modifies op`r
    ensures op.Well() && op.r == WithHead(old(op.r), old(op.r.head).(entryIndex := i + 1))
    ensures SameJob(old(op.r), op.r)
    ensures Follows(op.backend.quiet, op.claim, x, op.backend.w, op.r)
    ensures Ended(op.backend.quiet, op.claim, x, op.backend.w, op.r) && (x.Some? ==> MoveForward(op.r))
  {
    hide Recover, Sound, Blocked, AllGood, MoveForward, Restorable, AllRoll;
    IndexInBounds(op.backend.w, op.r);
    if x.Some? { MoveForwardNext(r0, op.r, i); }
    op.SetHead(op.r.head.(entryIndex := i + 1), x);
  }

  /** Past the last entry. */
  method CompleteMove(op: Operation, ghost x: Option<Namespace>)
    requires op.Well() && Follows(op.backend.quiet, op.claim, x, op.backend.w, op.r)
    requires x.Some? ==> MoveForward(op.r)
    modifies op`r
    ensures op.Well() && op.r == WithHead(old(op.r), old(op.r.head).(active := false))
    ensures SameJob(old(op.r), op.r)
    ensures Ended(op.backend.quiet, op.claim, x, op.backend.w, op.r) && (x.Some? ==> MoveForward(op.r))
  {
    hide Recover, Sound, Blocked, AllGood, MoveForward, Restorable, AllRoll;
    IndexInBounds(op.backend.w, op.r);
    if x.Some? { MoveForwardHead(op.r, op.r.head.(active := false)); }
    op.SetHead(op.r.head.(active := false), x);
  }

  /** Nothing stands in the way of the next pump. */
  ghost predicate MoveAble(op: Operation)
    reads op, op.backend
  {
    && op.backend.reliable && !op.cancelRequested && op.r.head.entryIndex < |op.r.entries|
    && MoveFits(op.backend.w.ns, op.r, op.r.head.entryIndex)
  }

  /** One pump of a move. The step is 2 while it goes forward. */
  method PumpMove(op: Operation, ghost x: Option<Namespace>) returns (res: Result, step: int, ghost loss: Loss)
    requires op.Well() && !op.r.head.operation.Copy? && PristineFrom(op.r.entries, op.r.head.entryIndex)
    requires Follows(op.backend.quiet, op.claim, x, op.backend.w, op.r)
    requires x.Some? ==> MoveForward(op.r) && !op.r.head.policy.ConflictReplace? && !op.claim.Strict?
    modifies op`r, op`claim, op`past, op`sourceHandle, op`tempHandle, op`fileOpen, op.backend`w
    ensures op.Well() && -1 <= step <= 2 && SameJob(old(op.r), op.r) && old(op.past) <= op.past
    ensures op.claim == if x.Some? && loss.Window? then Strict(loss.moment) else old(op.claim)
    ensures loss.Window? ==> step != 2
    ensures x.Some? ==>
      Accounted(old(op.claim), x.value, old(op.r), old(op.backend.w.ns), op.backend.reliable, op.past, loss)
    ensures step != 2 ==>
      Fallen(Aim(x, loss), op.claim, op.backend.quiet, op.backend.w, op.r, step)
    ensures step == 2 ==>
      op.r.head.rollbackActive == old(op.r.head.rollbackActive) && PristineFrom(op.r.entries, op.r.head.entryIndex)
    ensures x.Some? && loss.Kept? && step == 2 ==>
      && Ended(op.backend.quiet, op.claim, x, op.backend.w, op.r) && MoveForward(op.r)
      && (res == InProgress ==> Follows(op.backend.quiet, op.claim, x, op.backend.w, op.r))
    ensures step == 2 && res == InProgress ==> op.r.head.active == old(op.r.head.active)
    ensures step == 2 && res != InProgress ==>
      res == Completed && !op.r.head.active && op.r.head.entryIndex == |op.r.entries|
    ensures old(op.r.head.entryIndex >= |op.r.entries|) ==>
      step == 2 && res == Completed && loss.Kept? && op.backend.w == old(op.backend.w) &&
      op.r.entries == old(op.r.entries)
    ensures x.Some? && old(MoveAble(op)) ==>
      && step == 2 && res == InProgress && loss.Kept? && op.r.head.entryIndex == old(op.r.head.entryIndex) + 1
      && MovesOn(old(op.backend.w.ns), old(op.r), old(op.r.head.entryIndex), op.backend.w.ns, op.r)
  {
    hide Recover, Sound, MoveForward, EntryOnTop, Fallen, Ended, Follows, SameJob, MovesOn, MoveFits, Led, Aim;
    IndexInBounds(op.backend.w, op.r);
    if op.r.head.entryIndex >= |op.r.entries| {
      CompleteMove(op, x);
      res, step, loss := Completed, 2, Kept;
    } else {
      res, step, loss := MoveTurn(op, x);
      if x.Some? && step == 2 && loss.Kept? { FollowsIsEnded(op.backend.quiet, op.claim, x, op.backend.w, op.r); }
    }
  }

  /** One turn at the entry of the index. */
  method MoveTurn(op: Operation, ghost x: Option<Namespace>) returns (res: Result, step: int, ghost loss: Loss)
    requires op.Well() && !op.r.head.operation.Copy? && op.r.head.entryIndex < |op.r.entries|
    requires PristineFrom(op.r.entries, op.r.head.entryIndex)
    requires Follows(op.backend.quiet, op.claim, x, op.backend.w, op.r)
    requires x.Some? ==> MoveForward(op.r) && !op.r.head.policy.ConflictReplace? && !op.claim.Strict?
    modifies op`r, op`claim, op`past, op`sourceHandle, op`tempHandle, op`fileOpen, op.backend`w
    ensures op.Well() && -1 <= step <= 2 && SameJob(old(op.r), op.r) && old(op.past) <= op.past
    ensures op.claim == if x.Some? && loss.Window? then Strict(loss.moment) else old(op.claim)
    ensures loss.Window? ==> step != 2
    ensures x.Some? ==>
      Accounted(old(op.claim), x.value, old(op.r), old(op.backend.w.ns), op.backend.reliable, op.past, loss)
    ensures step != 2 ==>
      Fallen(Aim(x, loss), op.claim, op.backend.quiet, op.backend.w, op.r, step)
    ensures step == 2 ==>
      op.r.head.rollbackActive == old(op.r.head.rollbackActive) && PristineFrom(op.r.entries, op.r.head.entryIndex)
    ensures x.Some? && loss.Kept? && step == 2 ==>
      Follows(op.backend.quiet, op.claim, x, op.backend.w, op.r) && MoveForward(op.r)
    ensures step == 2 ==> res == InProgress && op.r.head.active == old(op.r.head.active)
    ensures x.Some? && old(MoveAble(op)) ==>
      && step == 2 && loss.Kept? && op.r.head.entryIndex == old(op.r.head.entryIndex) + 1
      && MovesOn(old(op.backend.w.ns), old(op.r), old(op.r.head.entryIndex), op.backend.w.ns, op.r)
  {
    hide Recover, Sound, MoveForward, EntryOnTop, Fallen, Ended, Follows, SameJob, MoveFits, Accounted, AtWindow;
    var i := op.r.head.entryIndex;
    ghost var r0 := op.r;
    if x.Some? { MoveOnTop(op.backend.w, op.r); }
    var turn;
    turn, loss := BeginMove(op, i, x);
    NoneFollows(op.backend.quiet, op.claim, op.backend.w, op.r);
    ghost var r1 := op.r;
    if turn.Fell? {
      if x.Some? && loss.Window? {
        WindowFollows(op.claim, x.value, op.backend.quiet, op.backend.w, op.r, loss);
        op.claim := Strict(loss.moment);
      }
      res, step := FallMove(op, turn.result, Aim(x, loss));
    } else {
      NextMove(op, i, r0, if loss.Kept? then x else None);
      res, step := InProgress, 2;
    }
    SameJobThrough(r0, r1, op.r);
  }

  /** From the moment of a failure in the window on, rolling back has an aim of its own. */
  lemma WindowFollows(claim: Claim, x: Namespace, quiet: bool, w: World, r: Record, loss: Loss)
    requires loss.Window? && AtWindow(claim, x, quiet, w, r, loss)
    ensures Follows(quiet, Strict(loss.moment), Aim(Some(x), loss), w, r)
  {
    hide Recover, Restorable, AllRoll, Led;
  }

  lemma FollowsIsEnded(quiet: bool, claim: Claim, x: Option<Namespace>, w: World, r: Record)
    requires Follows(quiet, claim, x, w, r)
    ensures Ended(quiet, claim, x, w, r)
  {
  }

  lemma SameJobThrough(a: Record, b: Record, c: Record)
    requires SameJob(a, b) && SameJob(b, c)
    ensures SameJob(a, c)
  {
  }

  lemma NoneFollows(quiet: bool, claim: Claim, w: World, r: Record)
    ensures Follows(quiet, claim, None, w, r)
  {
  }

  lemma MoveForwardHead(r: Record, h: Header)
    requires MoveForward(r) && h.entryIndex == r.head.entryIndex
    ensures MoveForward(WithHead(r, h))
  {
  }

  lemma MoveOnTop(w: World, r: Record)
    requires Sound(w, r) && !r.head.operation.Copy? && MoveForward(r) && r.head.entryIndex < |r.entries|
    ensures EntryOnTop(r, r.head.entryIndex) && Pristine(r.entries[r.head.entryIndex])
  {
  }

  lemma MoveForwardNext(r0: Record, r: Record, i: nat)
    requires MoveForward(r0) && i == r0.head.entryIndex < |r0.entries| == |r.entries| && r.head == r0.head
    requires r.entries == r0.entries[i := r.entries[i]] && (Pristine(r.entries[i]) || Arrived(r.entries[i]))
    ensures MoveForward(WithHead(r, r.head.(entryIndex := i + 1)))
  {
    var entries := r.entries;
    assert forall j :: 0 <= j < |entries| && j != i ==> entries[j] == r0.entries[j];
  }
}
