/** The pumped, crash-recoverable file operation engine. */
module FileOperations {
  import opened Common
  import opened Namespaces
  import opened UndoSpec
  import opened FileBackend
  import opened CopyStream

  /** What every call keeps, whatever others do to the namespace. */
  ghost predicate Sound(w: World, r: Record) {
    && Lawful(w) && SameJob(w.saved, r)
    && r.head.entryIndex <= |r.entries| && r.head.rollbackIndex <= |r.entries|
    && Own(r, w.issued) && (r.head.operation.Copy? ==> Restorable(r)) && Harmless(w.deeds, w.made)
    && Due(w.quiet, w.start, w.deeds, r, |w.deeds|)
  }

  /** A move may go on with an entry it has taken up, and take one up whose destination is free. */
  predicate MayTake(w: World, operation: OperationKind, before: Entry, e: Entry) {
    w.quiet && !operation.Copy? ==> Idle(e) || !Idle(before) || e.task.dest !in w.ns
  }

  lemma TakenIsDue(w: World, r: Record, j: nat, e: Entry)
    requires Lawful(w) && Due(w.quiet, w.start, w.deeds, r, |w.deeds|) && j < |r.entries|
    requires SameTask(r.entries[j], e) && MayTake(w, r.head.operation, r.entries[j], e)
    ensures Due(w.quiet, w.start, w.deeds, WithEntry(r, j, e), |w.deeds|)
  {
    if w.quiet && !r.head.operation.Copy? {
      var next := WithEntry(r, j, e);
      forall k | 0 <= k < |next.entries|
        ensures DueEntry(w.start, w.deeds, next.entries[k], w.start.saved.entries[k], |w.deeds|)
      {
        assert DueEntry(w.start, w.deeds, r.entries[k], w.start.saved.entries[k], |w.deeds|);
        assert w.ns == NsAt(w.start.ns, w.deeds, |w.deeds|);
      }
    }
  }

  /** The present state recovers to `x`, and so does every moment so far, as far as is claimed. */
  ghost predicate Tracks(claim: Claim, x: Namespace, w: World, r: Record) {
    AllGood(claim, x, w.history) && Recover(w.ns, r) == Some(x)
  }

  /** The same for a run that may not be tracked at all. */
  ghost predicate Follows(quiet: bool, claim: Claim, x: Option<Namespace>, w: World, r: Record) {
    x.Some? ==> quiet && Interrupted(r) && Restorable(r) && AllRoll(r) && Tracks(claim, x.value, w, r)
  }

  /** The same once the operation has ended. */
  ghost predicate Ended(quiet: bool, claim: Claim, x: Option<Namespace>, w: World, r: Record) {
    x.Some? ==> quiet && Restorable(r) && AllRoll(r) && Tracks(claim, x.value, w, r)
  }

  /** As above, except that a collision at the temporary path may block recovery. */
  ghost predicate Stands(quiet: bool, claim: Claim, x: Option<Namespace>, w: World, r: Record) {
    x.Some? ==>
      && quiet && Interrupted(r) && Restorable(r) && AllRoll(r) && AllGood(claim, x.value, w.history)
      && (Recover(w.ns, r) == Some(x.value) || (!claim.Strict? && Collides(x.value, w.ns, r)))
  }

  function ResultOf(status: Status): Result {
    match status
    case OutOfSpace => NoSpace
    case Unplugged => DeviceRemoved
    case IdentityMismatch => Conflicted
    case PathExists => Conflicted
    case _ => IoFailed
  }

  /** Removing the object of a slot the durable record describes does no harm. */
  lemma SlotRemovalHarmless(w: World, r: Record, temp: bool, j: nat, d: Deed)
    requires Sound(w, r) && HasSlot(r, temp, j) && SlotHeld(r, temp, j)
    requires d.act == Remove(SlotPath(r, temp, j)) && d.record == r && Effect(d)
    requires d.before[SlotPath(r, temp, j)].id == SlotId(r, temp, j)
    requires SlotId(r, temp, j).token in w.issued ==> SlotId(r, temp, j) in w.made
    ensures Harmless(w.deeds + [d], w.made)
  {
    if !temp {
      assert OwnEntry(r.head.operation, r.head.policy, r.entries[j], w.issued);
      assert RemovalOf(r.entries[j], SlotPath(r, temp, j), SlotId(r, temp, j));
    }
    DeedKeepsHarmless(w.deeds, w.made, w.made, d);
  }

  /** So does a rename that the durable record announces. */
  lemma RenameHarmless(w: World, r: Record, j: nat, d: Deed)
    requires Sound(w, r) && j < |r.entries| && d.act.Rename? && d.record == r && Effect(d)
    requires RenameOf(r.head.operation, r.entries[j], d.act.from, d.act.to, d.before[d.act.from].id)
    ensures Harmless(w.deeds + [d], w.made)
  {
    DeedKeepsHarmless(w.deeds, w.made, w.made, d);
  }

  lemma NothingDone(w: World, r: Record)
    requires Sound(w, r)
    ensures Harmless(w.deeds, w.made)
  {
  }

  /** Nothing but the object at `p` may have gone. */
  predicate Shrunk(ns: Namespace, ns': Namespace, p: Path) { ns' == ns || ns' == ns - {p} }

  predicate SavableSlot(temp: bool, id: Identity, cleanup: Cleanup) {
    && (if temp then id.IntentValid() else id.Valid())
    && !cleanup.RenameInProgress? && !cleanup.RenameSyncPending?
  }

  lemma SlotKeepsSound(w: World, r: Record, temp: bool, j: nat, id: Identity, cleanup: Cleanup)
    requires Sound(w, r) && HasSlot(r, temp, j) && SlotHeld(r, temp, j) && id.token == SlotId(r, temp, j).token
    requires r.head.operation.Copy? ==> SavableSlot(temp, id, cleanup)
    ensures Sound(w, WithSlot(r, temp, j, id, cleanup))
    ensures Restorable(r) && SavableSlot(temp, id, cleanup) ==> Restorable(WithSlot(r, temp, j, id, cleanup))
    ensures AllRoll(r) ==> AllRoll(WithSlot(r, temp, j, id, cleanup))
  {
  }

  lemma EntryKeepsSound(w: World, r: Record, j: nat, e: Entry)
    requires Sound(w, r) && j < |r.entries|
    requires SameTask(r.entries[j], e) && OwnEntry(r.head.operation, r.head.policy, e, w.issued)
    requires r.head.operation.Copy? ==> SavableEntry(e)
    requires MayTake(w, r.head.operation, r.entries[j], e)
    ensures Sound(w, WithEntry(r, j, e))
    ensures Restorable(r) && SavableEntry(e) ==> Restorable(WithEntry(r, j, e))
    ensures AllRoll(r) && RollsExactly(r.head.operation, e) ==> AllRoll(WithEntry(r, j, e))
  {
    TakenIsDue(w, r, j, e);
    hide Lawful, Harmless, Due;
  }

  lemma TempOfCopy(w: World, r: Record)
    requires Sound(w, r)
    ensures r.tempCreated ==> r.head.operation.Copy?
  {
  }

  lemma SavableOf(r: Record, k: nat)
    requires k < |r.entries|
    ensures Restorable(r) ==> SavableEntry(r.entries[k])
    ensures AllRoll(r) ==> RollsExactly(r.head.operation, r.entries[k])
  {
  }

  lemma HeldIsValid(w: World, r: Record, temp: bool, j: nat)
    requires Sound(w, r) && HasSlot(r, temp, j) && SlotHeld(r, temp, j)
    ensures !temp && (r.head.operation.Copy? || Restorable(r)) ==> SlotId(r, temp, j).Valid()
  {
  }

  /** Forgetting an announced object keeps the entry in order. */
  lemma UnbornFits(kind: OperationKind, policy: Policy, e: Entry, issued: set<Token>)
    requires !e.created && e.objectId.HasToken() && OwnEntry(kind, policy, e, issued)
    ensures
      var unborn := e.(objectId := NO_IDENTITY);
      && OwnEntry(kind, policy, unborn, issued) && (RollsExactly(kind, e) ==> RollsExactly(kind, unborn))
      && (SavableEntry(e) && !e.applied ==> SavableEntry(unborn)) && (kind.Copy? ==> !e.applied)
  {
  }

  /** So does adopting it. */
  lemma BornFits(kind: OperationKind, policy: Policy, e: Entry, id: Identity, issued: set<Token>)
    requires !e.created && e.objectId.HasToken() && id.Valid() && id.token == e.objectId.token
    requires OwnEntry(kind, policy, e, issued)
    ensures
      var born := e.(created := true, objectId := id);
      && OwnEntry(kind, policy, born, issued) && (RollsExactly(kind, e) ==> RollsExactly(kind, born))
      && (SavableEntry(e) ==> SavableEntry(born))
  {
  }

  lemma OwnsEntry(w: World, r: Record, k: nat)
    requires Sound(w, r) && k < |r.entries|
    ensures OwnEntry(r.head.operation, r.head.policy, r.entries[k], w.issued)
    ensures r.head.operation.Copy? ==> SavableEntry(r.entries[k])
  {
  }

  lemma SoundIsLawful(w: World, r: Record)
    requires Sound(w, r)
    ensures Lawful(w) && SameJob(w.saved, r) && Closed(w.ns)
  {
  }

  /** A record that is durable can be restored. */
  lemma DurableIsSavable(w: World, r: Record, j: nat)
    requires Sound(w, r) && w.saved == r && j < |r.entries|
    ensures SavableEntry(r.entries[j])
  {
  }

  /** After a change that the durable record announced, everything still holds. */
  lemma ChangedSound(w0: World, w: World, r: Record)
    requires Sound(w0, r) && Lawful(w) && w0.saved == r && w == w0.(ns := w.ns, deeds := w.deeds, history := w.history)
    requires Harmless(w.deeds, w.made)
    ensures Sound(w, r)
  {
    hide Harmless, Own, Restorable, SameTasks, Due;
  }

  lemma SteppedKeepsSound(w: World, r: Record, e: Entry)
    requires Sound(w, r) && r.head.rollbackIndex != 0 && SameTask(r.entries[r.head.rollbackIndex - 1], e)
    requires OwnEntry(r.head.operation, r.head.policy, e, w.issued) && (r.head.operation.Copy? ==> SavableEntry(e))
    requires MayTake(w, r.head.operation, r.entries[r.head.rollbackIndex - 1], e)
    ensures r.head.rollbackIndex <= |r.entries| && Sound(w, Stepped(r, e, true))
    ensures Restorable(r) && SavableEntry(e) ==> Restorable(Stepped(r, e, true))
    ensures AllRoll(r) && RollsExactly(r.head.operation, e) ==> AllRoll(Stepped(r, e, true))
  {
    hide Sound, Restorable, AllRoll, SameTasks, MayTake, SavableEntry, OwnEntry, RollsExactly;
    IndexInBounds(w, r);
    var next := WithEntry(r, r.head.rollbackIndex - 1, e);
    EntryKeepsSound(w, r, r.head.rollbackIndex - 1, e);
    BelowKeepsSound(w, next);
  }

  /** Neither the entry under rollback nor the index is something others could have touched. */
  lemma BelowKeepsSound(w: World, r: Record)
    requires Sound(w, r) && r.head.rollbackIndex != 0
    ensures Sound(w, Below(r)) && r.head.rollbackIndex <= |r.entries|
    ensures Restorable(r) ==> Restorable(Below(r))
    ensures AllRoll(r) ==> AllRoll(Below(r))
  {
  }

  /** The destination holds the entry's object. */
  predicate StandsAt(ns: Namespace, e: Entry) { e.task.dest in ns && SameObject(ns[e.task.dest].id, e.objectId) }

  /** The slot's object stands under its recorded identity and can be removed. */
  ghost predicate Deletable(ns: Namespace, r: Record, temp: bool, j: nat)
    requires HasSlot(r, temp, j)
  {
    && Restorable(r) && SlotPath(r, temp, j) in ns && SlotId(r, temp, j).Valid()
    && ns[SlotPath(r, temp, j)].id == SlotId(r, temp, j)
    && RemoveNode(ns, SlotPath(r, temp, j), SlotDirectory(r, temp, j)).Some?
  }

  /** What a turn of the rollback loop comes to, undisturbed and with calls that fail only for cause,
      where rolling back need not be exact. An announced object that is absent is forgotten together
      with whatever the entry displaced; an object that carries the recorded token is taken for one
      of the operation's own, and then removed; a pending sync is taken for that of the rename home. */
  ghost predicate LimitTurn(ns: Namespace, r: Record, ns': Namespace, r': Record, step: int)
    requires 0 != r.head.rollbackIndex <= |r.entries|
  {
    var j := r.head.rollbackIndex - 1;
    var e := r.entries[j];
    var announced := !e.created && e.objectId.HasToken();
    && (announced && !e.applied && e.task.dest !in ns ==>
          step == 1 && ns' == ns && r' == Stepped(r, e.(objectId := NO_IDENTITY), true))
    && (announced && StandsAt(ns, e) ==>
          step == 1 && ns' == ns && r' == WithEntry(r, j, e.(created := true)))
    && (e.created && e.applied && e.cleanup.CleanupNone? && Deletable(ns, r, false, j) ==>
          step == -1 && ns' == ns - {e.task.dest})
    && (!e.created && !e.objectId.HasToken() && e.applied && e.cleanup.RenameSyncPending? && e.objectId.Valid() ==>
          step == 1 && ns' == ns && r' == Stepped(r, Home(e), true))
  }

  lemma AnnouncedLimit(ns: Namespace, r: Record, ns': Namespace, r': Record, step: int)
    requires 0 != r.head.rollbackIndex <= |r.entries|
    requires !r.entries[r.head.rollbackIndex - 1].created && r.entries[r.head.rollbackIndex - 1].objectId.HasToken()
    requires
      var j := r.head.rollbackIndex - 1;
      var e := r.entries[j];
      && (!e.applied && e.task.dest !in ns ==>
            step == 1 && ns' == ns && r' == Stepped(r, e.(objectId := NO_IDENTITY), true))
      && (StandsAt(ns, e) ==>
            step == 1 && ns' == ns && r' == WithEntry(r, j, e.(created := true)))
    ensures LimitTurn(ns, r, ns', r', step)
  {
  }

  lemma CreatedLimit(ns: Namespace, r: Record, ns': Namespace, step: int)
    requires 0 != r.head.rollbackIndex <= |r.entries| && r.entries[r.head.rollbackIndex - 1].created
    ensures
      var j := r.head.rollbackIndex - 1;
      var e := r.entries[j];
      (e.applied && e.cleanup.CleanupNone? && Deletable(ns, r, false, j) ==>
        step == -1 && ns' == ns - {e.task.dest}) ==>
        forall r' :: LimitTurn(ns, r, ns', r', step)
  {
  }

  lemma AppliedLimit(ns: Namespace, r: Record, ns': Namespace, r': Record, step: int)
    requires 0 != r.head.rollbackIndex <= |r.entries|
    requires !r.entries[r.head.rollbackIndex - 1].created && !r.entries[r.head.rollbackIndex - 1].objectId.HasToken()
    requires
      var e := r.entries[r.head.rollbackIndex - 1];
      e.cleanup.RenameSyncPending? && e.objectId.Valid() ==>
        step == 1 && ns' == ns && r' == Stepped(r, Home(e), true)
    ensures LimitTurn(ns, r, ns', r', step)
  {
  }

  lemma IndexInBounds(w: World, r: Record)
    requires Sound(w, r)
    ensures r.head.entryIndex <= |r.entries| && r.head.rollbackIndex <= |r.entries|
  {
  }

  lemma RememberedSound(w: World, r: Record)
    requires Sound(w, r)
    ensures Sound(w.(past := w.history), r) && w.past <= w.history
  {
  }

  /** The flags in the header have no part in how a record rolls back. */
  lemma HeadRolls(r: Record, h: Header)
    requires h.operation == r.head.operation && h.rollbackIndex == r.head.rollbackIndex <= |r.entries|
    ensures Work(WithHead(r, h)) == Work(r) && Rollable(WithHead(r, h)) == Rollable(r)
  {
    assert WithHead(r, h).entries == r.entries;
    assert forall j :: 0 <= j < |r.entries| ==> WithHead(r, h).entries[j] == r.entries[j];
  }

  /** Forgetting a move whose object is back keeps everything. */
  lemma HomeSettled(w: World, r: Record, x: Option<Namespace>)
    requires Sound(w, r) && 0 != r.head.rollbackIndex <= |r.entries| && !r.head.operation.Copy?
    requires
      var e := r.entries[r.head.rollbackIndex - 1];
      e.applied && !e.created && e.cleanup.RenameSyncPending? && e.objectId.Valid()
    requires x.Some? ==>
      && Recover(w.ns, r) == x && EntryOnTop(r, r.head.rollbackIndex - 1)
      && OnlyMoved(r.entries[r.head.rollbackIndex - 1])
    ensures
      var next := Stepped(r, Home(r.entries[r.head.rollbackIndex - 1]), true);
      && Sound(w, next) && (Restorable(r) ==> Restorable(next)) && (AllRoll(r) ==> AllRoll(next))
      && (x.Some? ==> Recover(w.ns, next) == x) && next.head.operation == r.head.operation
      && (Interrupted(r) ==> Interrupted(next))
  {
    hide Recover, UndoEntry, Sound, Restorable, AllRoll;
    var j := r.head.rollbackIndex - 1;
    StepTo(r, Home(r.entries[j]), true);
    OwnsEntry(w, r, j);
    SavableOf(r, j);
    SteppedKeepsSound(w, r, Home(r.entries[j]));
    if x.Some? {
      HomeStages(w.ns, r.entries[j]);
      EntryStep(w.ns, r, w.ns, j, Home(r.entries[j]));
    }
  }

  /** A moved entry that can be undone has a valid identity, and a cleanup that belongs to a rename. */
  lemma HomewardReached(quiet: bool, claim: Claim, w: World, r: Record, j: nat, x: Option<Namespace>)
    requires Sound(w, r) && j < |r.entries| && x.Some? && Follows(quiet, claim, x, w, r)
    requires EntryOnTop(r, j) && OnlyMoved(r.entries[j])
    ensures r.entries[j].objectId.Valid()
    ensures
      var cleanup := r.entries[j].cleanup;
      cleanup.CleanupNone? || cleanup.RenameInProgress? || cleanup.RenameSyncPending?
  {
    hide Sound, Recover, AllGood, Restorable, AllRoll;
    EntryDefined(w.ns, r, j);
  }

  /** Announcing the rename home keeps everything. */
  lemma HomewardFollows(quiet: bool, claim: Claim, w: World, r: Record, j: nat, x: Option<Namespace>)
    requires Sound(w, r) && j < |r.entries| && !r.head.operation.Copy? && Follows(quiet, claim, x, w, r)
    requires r.entries[j].applied && r.entries[j].cleanup.CleanupNone?
    requires x.Some? ==> EntryOnTop(r, j) && OnlyMoved(r.entries[j]) && r.entries[j].objectId.Valid()
    ensures
      var next := WithEntry(r, j, r.entries[j].(cleanup := RenameInProgress));
      && Sound(w, next) && Follows(quiet, claim, x, w, next)
      && (x.Some? ==> EntryOnTop(next, j) && OnlyMoved(next.entries[j]))
  {
    hide Sound, Recover, UndoEntry, AllGood, Restorable, AllRoll;
    var e := r.entries[j];
    OwnsEntry(w, r, j);
    SavableOf(r, j);
    EntryKeepsSound(w, r, j, e.(cleanup := RenameInProgress));
    if x.Some? {
      HomeStages(w.ns, e);
      EntryStep(w.ns, r, w.ns, j, e.(cleanup := RenameInProgress));
    }
  }

  class Operation {
    const backend: Backend
    /** What is claimed of the moments of this run. */
    ghost var claim: Claim
    /** The part of the history that was remembered last. */
    ghost var past: seq<Instant>
    /** The durable part of the operation. */
    var r: Record
    var cancelRequested: bool
    var fileOpen: bool
    var sourceHandle: bool
    var tempHandle: bool
    var tempSequence: nat
    /** The file being copied, and the bytes done so far. */
    var stream: Stream
    /** The size of the copy buffer. */
    const capacity: nat

    constructor (backend: Backend, r: Record, capacity: nat, ghost claim: Claim)
      ensures this.backend == backend && this.r == r && this.claim == claim && this.capacity == capacity
      ensures past == backend.w.past
      ensures tempSequence == 0 && stream.completed == 0
      ensures !cancelRequested && !fileOpen && !sourceHandle && !tempHandle
    {
      this.backend, this.r, this.capacity, this.claim, past := backend, r, capacity, claim, backend.w.past;
      stream := Opened([], false, 0);
      cancelRequested, fileOpen, sourceHandle, tempHandle, tempSequence := false, false, false, false, 0;
    }

    /** What every call keeps. */
    ghost predicate Well()
      reads this, backend
    {
      && Sound(backend.w, r) && backend.w.quiet == backend.quiet && backend.w.start == backend.start
      && backend.w.past == past
    }

    /** Keeps the history up to now for later. */
    method Remember()
      requires Well()
      modifies this`past, backend`w
      ensures Well() && backend.w == old(backend.w).(past := backend.w.history) && past == backend.w.history
      ensures old(past) <= past
    {
      RememberedSound(backend.w, r);
      hide Sound;
      backend.w := backend.w.(past := backend.w.history);
      past := backend.w.history;
    }

    // Calls that change no name.

    /** Writes the record ahead of the change it announces. */
    method Checkpoint(ghost x: Option<Namespace>) returns (ok: bool)
      requires Well()
      requires x.Some? ==>
        && Restorable(r) && backend.quiet && AllGood(claim, x.value, backend.w.history)
        && (!claim.Loose? ==> Good(claim, x.value, backend.w.ns, r))
      modifies backend`w
      ensures Well() && backend.w.issued == old(backend.w.issued)
      ensures ok ==> backend.w.saved == r
      ensures backend.quiet ==> backend.w.ns == old(backend.w.ns)
      ensures backend.quiet ==> backend.w == Stored(old(backend.w), r) || backend.w == old(backend.w)
      ensures x.Some? ==> AllGood(claim, x.value, backend.w.history)
      ensures backend.reliable && (r.head.operation.Copy? || Restorable(r)) ==> ok
    {
      ok := backend.Checkpoint(r);
    }

    /** Makes the change of a directory durable, closes a handle or copies metadata. */
    method Touch() returns (status: Status)
      requires Well()
      modifies backend`w
      ensures Well() && backend.w.saved == old(backend.w.saved) && backend.w.issued == old(backend.w.issued)
      ensures backend.quiet ==> backend.w == old(backend.w)
      ensures backend.reliable ==> status == Ok
      ensures status != PathExists
    {
      status := backend.Touch();
    }

    method StateOf(p: Path) returns (state: int)
      requires Well()
      modifies backend`w
      ensures Well() && backend.w.saved == old(backend.w.saved) && backend.w.issued == old(backend.w.issued)
      ensures backend.quiet ==> backend.w == old(backend.w)
      ensures state == -1 || state == (if p in backend.w.ns then 1 else 0)
      ensures backend.reliable ==> state != -1
    {
      state := backend.PathState(p);
    }

    method IdentityOf(p: Path) returns (status: Status, id: Identity)
      requires Well()
      modifies backend`w
      ensures Well() && backend.w.saved == old(backend.w.saved) && backend.w.issued == old(backend.w.issued)
      ensures backend.quiet ==> backend.w == old(backend.w)
      ensures status == Ok ==> p in backend.w.ns && id == backend.w.ns[p].id && id.Valid()
      ensures backend.reliable && p in backend.w.ns && backend.w.ns[p].id.Valid() ==> status == Ok
    {
      status, id := backend.PathIdentity(p);
    }

    /** Is the object at `p` the recorded one? */
    method HoldsObject(p: Path, id: Identity) returns (same: bool)
      requires Well()
      modifies backend`w
      ensures Well() && backend.w.saved == old(backend.w.saved) && backend.w.issued == old(backend.w.issued)
      ensures backend.quiet ==> backend.w == old(backend.w)
      ensures backend.quiet && same ==> p in backend.w.ns && SameObject(backend.w.ns[p].id, id)
      ensures backend.quiet && backend.reliable && p in backend.w.ns && SameObject(backend.w.ns[p].id, id) ==> same
    {
      var status, current := backend.PathIdentity(p);
      same := status == Ok && SameObject(current, id);
    }

    method Load(p: Path) returns (status: Status, content: seq<bv8>)
      requires Well()
      modifies backend`w
      ensures Well() && backend.w.saved == old(backend.w.saved) && backend.w.issued == old(backend.w.issued)
      ensures backend.quiet ==> backend.w == old(backend.w)
      ensures backend.quiet && status == Ok ==> p in backend.w.ns && content == backend.w.ns[p].content
      ensures backend.reliable && p in backend.w.ns ==> status == Ok
    {
      status, content := backend.Load(p);
    }

    /** A random token that nothing carries. */
    method FreshToken() returns (ok: bool, token: Token)
      requires Well()
      modifies backend`w
      ensures Well() && backend.w.saved == old(backend.w.saved)
      ensures ok ==>
        && token != 0 && token in backend.w.issued
        && forall p :: p in backend.w.ns ==> backend.w.ns[p].id.token != token
      ensures backend.w.issued >= old(backend.w.issued) && backend.w.history == old(backend.w.history)
      ensures backend.quiet ==> backend.w.ns == old(backend.w.ns)
      ensures backend.reliable ==> ok
    {
      ok, token := backend.RandomToken();
    }

    method CloseFiles() returns (ok: bool)
      requires Well()
      modifies this`sourceHandle, this`tempHandle, this`fileOpen, backend`w
      ensures Well() && backend.w.saved == old(backend.w.saved) && backend.w.issued == old(backend.w.issued)
      ensures backend.quiet ==> backend.w == old(backend.w)
      ensures !sourceHandle && !tempHandle && !fileOpen
      ensures backend.reliable ==> ok
    {
      ok := true;
      if sourceHandle {
        var status := backend.Touch();
        ok := ok && status == Ok;
        sourceHandle := false;
      }
      if tempHandle {
        var status := backend.Touch();
        ok := ok && status == Ok;
        tempHandle := false;
      }
      fileOpen := false;
    }

    // Removing a path the operation created.

    /** Records the next stage of removing the slot's object. */
    method AdvanceSlot(temp: bool, j: nat, id: Identity, cleanup: Cleanup, ghost x: Option<Namespace>)
      returns (ok: bool)
      requires Well() && HasSlot(r, temp, j) && SlotHeld(r, temp, j)
      requires id.token == SlotId(r, temp, j).token
      requires r.head.operation.Copy? || x.Some? ==> SavableSlot(temp, id, cleanup)
      requires Follows(backend.quiet, claim, x, backend.w, r)
      requires x.Some? ==> SlotOnTop(r, temp, j)
      requires x.Some? ==>
        SlotCleaned(backend.w.ns, r, temp, j)
          == SlotCleaned(backend.w.ns, WithSlot(r, temp, j, id, cleanup), temp, j)
      modifies this`r, backend`w
      ensures Well() && r == WithSlot(old(r), temp, j, id, cleanup) && SlotHeld(r, temp, j)
      ensures x.Some? ==> backend.w.ns == old(backend.w.ns) && SlotOnTop(r, temp, j)
      ensures Follows(backend.quiet, claim, x, backend.w, r)
      ensures ok ==> backend.w.saved == r
      ensures backend.reliable && (x.Some? || Restorable(r)) ==> ok
      ensures old(Restorable(r)) && SavableSlot(temp, id, cleanup) ==> Restorable(r)
      ensures backend.quiet ==> backend.w.ns == old(backend.w.ns)
    {
      SlotKeepsSound(backend.w, r, temp, j, id, cleanup);
      if x.Some? { SlotStep(backend.w.ns, r, backend.w.ns, temp, j, id, cleanup); }
      r := WithSlot(r, temp, j, id, cleanup);
      ok := Checkpoint(x);
    }

    /** Removes the slot's object when it is still the expected one. */
    method RemoveSlot(temp: bool, j: nat, ghost x: Option<Namespace>) returns (ok: bool)
      requires Well() && HasSlot(r, temp, j) && SlotHeld(r, temp, j)
      requires SlotId(r, temp, j).Valid() && SlotCleanup(r, temp, j).RemoveInProgress?
      requires Follows(backend.quiet, claim, x, backend.w, r)
      requires x.Some? ==> SlotOnTop(r, temp, j)
      requires backend.w.saved == r
      modifies backend`w
      ensures Well()
      ensures Follows(backend.quiet, claim, x, backend.w, r)
      ensures x.Some? && ok ==> SlotPath(r, temp, j) !in backend.w.ns
      ensures x.Some? && backend.reliable ==> ok
      ensures backend.quiet ==> Shrunk(old(backend.w.ns), backend.w.ns, SlotPath(r, temp, j))
      ensures backend.quiet && backend.reliable && old(Deletable(backend.w.ns, r, temp, j)) ==>
        ok && backend.w.ns == old(backend.w.ns) - {SlotPath(r, temp, j)} && Restorable(r)
    {
      hide Sound, Lawful, Harmless, Effect, SlotOnTop, SlotCleaned, Recover, Restorable, AllRoll, Interrupted;
      ghost var w0 := backend.w;
      SoundIsLawful(w0, r);
      if x.Some? { SlotDefined(w0.ns, r, temp, j); }
      var status, done, deed := backend.RemoveExpected(
        SlotPath(r, temp, j), SlotDirectory(r, temp, j), SlotId(r, temp, j));
      if done { SlotRemovalHarmless(w0, r, temp, j, deed); } else { NothingDone(w0, r); }
      ChangedSound(w0, backend.w, r);
      if x.Some? { SlotRemoval(w0.ns, r, backend.w.ns, temp, j); }
      SoundIsLawful(backend.w, r);
      ghost var w1 := backend.w;
      if status == Ok {
        ok := true;
      } else {
        var state := backend.PathState(SlotPath(r, temp, j));
        ChangedSound(w1, backend.w, r);
        ok := state == 0;
      }
    }

    /** Looks up the full identity of an object known by its token alone. */
    method ResolveSlot(temp: bool, j: nat, ghost x: Option<Namespace>) returns (ok: bool)
      requires Well() && HasSlot(r, temp, j) && SlotHeld(r, temp, j)
      requires SlotId(r, temp, j).IntentValid()
      requires SlotCleanup(r, temp, j).RemovePending? || SlotCleanup(r, temp, j).RemoveInProgress?
      requires Follows(backend.quiet, claim, x, backend.w, r)
      requires x.Some? ==> SlotOnTop(r, temp, j) && SlotPath(r, temp, j) in backend.w.ns
      modifies this`r, backend`w
      ensures Well() && HasSlot(r, temp, j) && SlotHeld(r, temp, j)
      ensures r == WithSlot(old(r), temp, j, SlotId(r, temp, j), SlotCleanup(old(r), temp, j))
      ensures SlotId(r, temp, j).token == old(SlotId(r, temp, j)).token
      ensures SlotId(r, temp, j).IntentValid() && (ok ==> SlotId(r, temp, j).Valid())
      ensures Follows(backend.quiet, claim, x, backend.w, r)
      ensures x.Some? ==> SlotOnTop(r, temp, j) && (backend.reliable ==> ok)
      ensures backend.quiet && temp && old(Blocked(backend.w.ns, r)) ==>
        !ok && backend.w == old(backend.w) && r == old(r)
      ensures old(SlotId(r, temp, j)).Valid() ==> ok && backend.w == old(backend.w) && r == old(r)
      ensures backend.quiet ==> backend.w.ns == old(backend.w.ns)
    {
      WithSlotTwice(r, temp, j);
      if x.Some? { SlotDefined(backend.w.ns, r, temp, j); }
      if SlotId(r, temp, j).Valid() {
        ok := true;
      } else {
        var status, current := backend.PathIdentity(SlotPath(r, temp, j));
        if status != Ok || !current.Valid() || current.token != SlotId(r, temp, j).token {
          ok := false;
        } else {
          ok := AdvanceSlot(temp, j, current, SlotCleanup(r, temp, j), x);
        }
      }
    }

    /** The removal proper: announce the full identity, remove, and note that a sync is due. */
    method RemoveStage(temp: bool, j: nat, ghost x: Option<Namespace>) returns (ok: bool)
      requires Well() && HasSlot(r, temp, j) && SlotHeld(r, temp, j)
      requires SlotId(r, temp, j).Valid()
      requires SlotCleanup(r, temp, j).RemovePending? || SlotCleanup(r, temp, j).RemoveInProgress?
      requires Follows(backend.quiet, claim, x, backend.w, r)
      requires x.Some? ==> SlotOnTop(r, temp, j)
      modifies this`r, backend`w
      ensures Well() && HasSlot(r, temp, j) && SlotHeld(r, temp, j)
      ensures r == WithSlot(old(r), temp, j, SlotId(old(r), temp, j), SlotCleanup(r, temp, j))
      ensures ok ==> SlotCleanup(r, temp, j).SyncPending?
      ensures Follows(backend.quiet, claim, x, backend.w, r)
      ensures x.Some? ==> SlotOnTop(r, temp, j) && (backend.reliable ==> ok)
      ensures x.Some? && ok ==> SlotPath(r, temp, j) !in backend.w.ns
      ensures backend.quiet ==> Shrunk(old(backend.w.ns), backend.w.ns, SlotPath(r, temp, j))
      ensures backend.quiet && backend.reliable && old(Deletable(backend.w.ns, r, temp, j)) ==>
        ok && backend.w.ns == old(backend.w.ns) - {SlotPath(r, temp, j)} && Restorable(r)
    {
      hide Sound, Recover, AllGood, SlotOnTop, AllRoll, Restorable, NoChildren;
      var id := SlotId(r, temp, j);
      WithSlotTwice(r, temp, j);
      ok := AdvanceSlot(temp, j, id, RemoveInProgress, x);
      if ok { ok := RemoveSlot(temp, j, x); }
      if ok { ok := AdvanceSlot(temp, j, id, SyncPending, x); }
    }

    method RemovalPhase(temp: bool, j: nat, ghost x: Option<Namespace>) returns (ok: bool)
      requires Well() && HasSlot(r, temp, j) && SlotHeld(r, temp, j)
      requires SlotId(r, temp, j).IntentValid()
      requires SlotCleanup(r, temp, j).RemovePending? || SlotCleanup(r, temp, j).RemoveInProgress?
      requires Follows(backend.quiet, claim, x, backend.w, r)
      requires x.Some? ==> SlotOnTop(r, temp, j)
      modifies this`r, backend`w
      ensures Well() && HasSlot(r, temp, j) && SlotHeld(r, temp, j)
      ensures r == WithSlot(old(r), temp, j, SlotId(r, temp, j), SlotCleanup(r, temp, j))
      ensures SlotId(r, temp, j).token == old(SlotId(r, temp, j)).token && SlotId(r, temp, j).IntentValid()
      ensures ok ==> SlotCleanup(r, temp, j).SyncPending?
      ensures Follows(backend.quiet, claim, x, backend.w, r)
      ensures x.Some? ==> SlotOnTop(r, temp, j) && (backend.reliable ==> ok)
      ensures x.Some? && ok ==> SlotPath(r, temp, j) !in backend.w.ns
      ensures backend.quiet && temp && old(Blocked(backend.w.ns, r)) ==>
        !ok && r == old(r) && backend.w == old(backend.w)
      ensures backend.quiet ==> Shrunk(old(backend.w.ns), backend.w.ns, SlotPath(r, temp, j))
      ensures backend.quiet && backend.reliable && old(Deletable(backend.w.ns, r, temp, j)) ==>
        ok && backend.w.ns == old(backend.w.ns) - {SlotPath(r, temp, j)} && Restorable(r)
    {
      hide Sound, Recover, AllGood, SlotOnTop, AllRoll, Restorable, NoChildren;
      WithSlotTwice(r, temp, j);
      HeldIsValid(backend.w, r, temp, j);
      var state := StateOf(SlotPath(r, temp, j));
      if state == 0 {
        ok := AdvanceSlot(temp, j, SlotId(r, temp, j), SyncPending, x);
      } else if state == 1 {
        ok := ResolveSlot(temp, j, x);
        if ok { ok := RemoveStage(temp, j, x); }
      } else {
        ok := false;
      }
    }

    method SyncPhase(temp: bool, j: nat, ghost x: Option<Namespace>) returns (ok: bool)
      requires Well() && HasSlot(r, temp, j) && SlotHeld(r, temp, j)
      requires SlotId(r, temp, j).IntentValid() && SlotCleanup(r, temp, j).SyncPending?
      requires Follows(backend.quiet, claim, x, backend.w, r)
      requires x.Some? ==> SlotOnTop(r, temp, j) && SlotPath(r, temp, j) !in backend.w.ns
      modifies this`r, backend`w
      ensures Well() && HasSlot(r, temp, j) && SlotHeld(r, temp, j)
      ensures r == WithSlot(old(r), temp, j, old(SlotId(r, temp, j)), SlotCleanup(r, temp, j))
      ensures ok ==> SlotCleanup(r, temp, j).CleanupNone?
      ensures Follows(backend.quiet, claim, x, backend.w, r)
      ensures x.Some? ==> SlotOnTop(r, temp, j) && (backend.reliable ==> ok)
      ensures x.Some? ==> SlotPath(r, temp, j) !in backend.w.ns
      ensures backend.reliable && old(Restorable(r)) ==> ok && Restorable(r)
      ensures backend.quiet ==> backend.w.ns == old(backend.w.ns)
    {
      WithSlotTwice(r, temp, j);
      var synced := Touch();
      if synced != Ok {
        ok := false;
      } else {
        ok := AdvanceSlot(temp, j, SlotId(r, temp, j), CleanupNone, x);
      }
    }

    /** The first stage of a removal, recorded only in memory; refused without an identity. */
    method StartCleanup(temp: bool, j: nat, ghost x: Option<Namespace>) returns (ok: bool)
      requires Well() && HasSlot(r, temp, j) && SlotHeld(r, temp, j)
      requires Follows(backend.quiet, claim, x, backend.w, r)
      requires x.Some? ==> SlotOnTop(r, temp, j)
      modifies this`r
      ensures Well() && HasSlot(r, temp, j) && SlotHeld(r, temp, j)
      ensures r == WithSlot(old(r), temp, j, old(SlotId(r, temp, j)), SlotCleanup(r, temp, j))
      ensures ok ==> SlotId(r, temp, j).IntentValid() && !SlotCleanup(r, temp, j).CleanupNone?
      ensures Follows(backend.quiet, claim, x, backend.w, r)
      ensures x.Some? ==>
        && ok && SlotOnTop(r, temp, j)
        && (SlotCleanup(r, temp, j).SyncPending? ==> SlotPath(r, temp, j) !in backend.w.ns)
        && !SlotCleanup(r, temp, j).RenameInProgress? && !SlotCleanup(r, temp, j).RenameSyncPending?
      ensures temp && old(Blocked(backend.w.ns, r)) ==>
        Blocked(backend.w.ns, r) && SlotCleanup(r, temp, j).RemovePending?
      ensures old(Deletable(backend.w.ns, r, temp, j)) ==> ok && Deletable(backend.w.ns, r, temp, j)
      ensures ok && old(SlotCleanup(r, temp, j)).CleanupNone? ==> SlotCleanup(r, temp, j).RemovePending?
    {
      WithSlotTwice(r, temp, j);
      if x.Some? {
        SlotDefined(backend.w.ns, r, temp, j);
        SlotRemovable(backend.w.ns, r, temp, j);
      }
      ok := SlotId(r, temp, j).IntentValid();
      if ok && SlotCleanup(r, temp, j).CleanupNone? {
        if x.Some? || (temp && Blocked(backend.w.ns, r)) { SlotStart(backend.w.ns, r, temp, j); }
        SlotKeepsSound(backend.w, r, temp, j, SlotId(r, temp, j), RemovePending);
        hide SameTasks, Recover, SlotCleaned, Sound;
        r := WithSlot(r, temp, j, SlotId(r, temp, j), RemovePending);
      }
    }

    /** Removes an object this operation created, in stages each of which is recorded first, so
        that the removal can be resumed after any of them. */
    method CleanupCreatedPath(temp: bool, j: nat, ghost x: Option<Namespace>) returns (ok: bool)
      requires Well() && HasSlot(r, temp, j) && SlotHeld(r, temp, j)
      requires Follows(backend.quiet, claim, x, backend.w, r)
      requires x.Some? ==> SlotOnTop(r, temp, j)
      modifies this`r, backend`w
      ensures Well() && HasSlot(r, temp, j) && SlotHeld(r, temp, j)
      ensures r == WithSlot(old(r), temp, j, SlotId(r, temp, j), SlotCleanup(r, temp, j))
      ensures SlotId(r, temp, j).token == old(SlotId(r, temp, j)).token
      ensures ok ==> SlotCleanup(r, temp, j).CleanupNone? && SlotId(r, temp, j).IntentValid()
      ensures Follows(backend.quiet, claim, x, backend.w, r)
      ensures x.Some? ==> SlotOnTop(r, temp, j) && (backend.reliable ==> ok)
      ensures x.Some? && ok ==> SlotPath(r, temp, j) !in backend.w.ns
      ensures backend.quiet && temp && old(Blocked(backend.w.ns, r)) ==>
        !ok && Blocked(backend.w.ns, r) && backend.w == old(backend.w)
      ensures backend.quiet ==> Shrunk(old(backend.w.ns), backend.w.ns, SlotPath(r, temp, j))
      ensures (backend.quiet && backend.reliable && old(Deletable(backend.w.ns, r, temp, j)) &&
               old(SlotCleanup(r, temp, j)).CleanupNone?) ==>
        ok && backend.w.ns == old(backend.w.ns) - {SlotPath(r, temp, j)}
    {
      WithSlotTwice(r, temp, j);
      assert Shrunk(backend.w.ns, backend.w.ns, SlotPath(r, temp, j));
      hide SameTasks, SlotCleaned, Recover, SlotOnTop, SlotId, SlotCleanup, SlotPath, SlotDirectory, WithSlot, Blocked,
        Sound, Shrunk, Deletable, Restorable;
      ok := StartCleanup(temp, j, x);
      if ok && (SlotCleanup(r, temp, j).RemovePending? || SlotCleanup(r, temp, j).RemoveInProgress?) {
        ok := RemovalPhase(temp, j, x);
      }
      if ok {
        if !SlotCleanup(r, temp, j).SyncPending? {
          ok := false;
        } else {
          ok := SyncPhase(temp, j, x);
        }
      }
    }

    // Putting a displaced object back.

    /** Replaces entry `j` in memory and stores the record. */
    method AdvanceEntry(j: nat, e: Entry, ghost x: Option<Namespace>) returns (ok: bool)
      requires Well() && j < |r.entries|
      requires SameTask(r.entries[j], e)
      requires OwnEntry(r.head.operation, r.head.policy, e, backend.w.issued)
      requires r.head.operation.Copy? ==> SavableEntry(e)
      requires MayTake(backend.w, r.head.operation, r.entries[j], e)
      requires x.Some? ==> SavableEntry(e) && RollsExactly(r.head.operation, e)
      requires Follows(backend.quiet, claim, x, backend.w, r)
      requires x.Some? ==> EntryOnTop(r, j) && UndoEntry(backend.w.ns, e) == UndoEntry(backend.w.ns, r.entries[j])
      modifies this`r, backend`w
      ensures Well() && r == WithEntry(old(r), j, e)
      ensures backend.w.issued == old(backend.w.issued)
      ensures x.Some? ==> backend.w.ns == old(backend.w.ns) && EntryOnTop(r, j)
      ensures Follows(backend.quiet, claim, x, backend.w, r)
      ensures ok ==> backend.w.saved == r
      ensures old(Restorable(r)) && SavableEntry(e) ==> Restorable(r)
      ensures backend.reliable && (r.head.operation.Copy? || Restorable(r)) ==> ok
      ensures backend.quiet ==> backend.w.ns == old(backend.w.ns)
    {
      hide Sound, Recover, UndoEntry, EntryOnTop;
      EntryKeepsSound(backend.w, r, j, e);
      if x.Some? { EntryStep(backend.w.ns, r, backend.w.ns, j, e); }
      r := WithEntry(r, j, e);
      ok := Checkpoint(x);
    }

    /** Moves the displaced object back, as the durable record announces. */
    method RenameBack(j: nat, ghost x: Option<Namespace>) returns (ok: bool)
      requires Well() && j < |r.entries| && OnlyReplacing(r.entries[j])
      requires r.entries[j].replacement.RestoreInProgress? && backend.w.saved == r
      requires Follows(backend.quiet, claim, x, backend.w, r)
      requires x.Some? ==> EntryOnTop(r, j) && r.entries[j].task.dest !in backend.w.ns
      modifies backend`w
      ensures Well() && backend.w.issued == old(backend.w.issued)
      ensures Follows(backend.quiet, claim, x, backend.w, r)
      ensures x.Some? && ok ==> Reinstated(backend.w.ns, r.entries[j]) == Some(backend.w.ns)
      ensures x.Some? && backend.reliable ==> ok
    {
      hide Recover, EntryOnTop, UndoEntry, Reinstated, CanMove, Moved, Own, SameJob, Closed, Restorable, AllRoll,
           Effect, Fair;
      ghost var w0 := backend.w;
      var e := r.entries[j];
      OwnsEntry(w0, r, j);
      if x.Some? {
        ReinstateReady(w0.ns, r, j);
        ReinstateStep(w0.ns, r, j);
      }
      var status, done, deed := backend.RenameExpected(e.backup, e.task.dest, e.backupId);
      if done { RenameHarmless(w0, r, j, deed); }
      ok := status == Ok;
    }

    /** Puts the displaced object back unless it is back already. */
    method BringBack(j: nat, backupState: int, destState: int, ghost x: Option<Namespace>) returns (ok: bool)
      requires Well() && j < |r.entries| && OnlyReplacing(r.entries[j])
      requires r.entries[j].replacement.RestoreInProgress?
      requires Follows(backend.quiet, claim, x, backend.w, r)
      requires x.Some? ==>
        && EntryOnTop(r, j)
        && backupState == (if r.entries[j].backup in backend.w.ns then 1 else 0)
        && destState == (if r.entries[j].task.dest in backend.w.ns then 1 else 0)
      modifies backend`w
      ensures Well() && backend.w.issued == old(backend.w.issued)
      ensures Follows(backend.quiet, claim, x, backend.w, r)
      ensures x.Some? && ok ==> Reinstated(backend.w.ns, r.entries[j]) == Some(backend.w.ns)
      ensures x.Some? && backend.reliable ==> ok
    {
      if x.Some? { EntryDefined(backend.w.ns, r, j); }
      var e := r.entries[j];
      if backupState == 0 && destState == 1 {
        ok := HoldsObject(e.task.dest, e.backupId);
      } else if backupState == 1 && destState == 0 {
        ok := HoldsObject(e.backup, e.backupId);
        if ok { ok := Checkpoint(x); }
        if ok { ok := RenameBack(j, x); }
        if ok { ok := Checkpoint(x); }
      } else {
        ok := false;
      }
    }

    /** The last step of a restoration: sync, then forget the replacement. */
    method ForgetReplacement(j: nat, ghost x: Option<Namespace>) returns (ok: bool)
      requires Well() && j < |r.entries| && OnlyReplacing(r.entries[j])
      requires Follows(backend.quiet, claim, x, backend.w, r)
      requires x.Some? ==> EntryOnTop(r, j) && Reinstated(backend.w.ns, r.entries[j]) == Some(backend.w.ns)
      modifies this`r, backend`w
      ensures Well()
      ensures r == old(r) || r == WithEntry(old(r), j, Forgotten(old(r.entries[j])))
      ensures ok ==> r == WithEntry(old(r), j, Forgotten(old(r.entries[j])))
      ensures Follows(backend.quiet, claim, x, backend.w, r)
      ensures x.Some? ==> EntryOnTop(r, j) && (backend.reliable ==> ok)
    {
      var synced := Touch();
      if synced != Ok {
        ok := false;
      } else {
        OwnsEntry(backend.w, r, j);
        ok := AdvanceEntry(j, Forgotten(r.entries[j]), x);
      }
    }

    /** Brings a crash between the backup rename and its checkpoint to one side or the other. */
    method ReconcileBackup(j: nat, backupState: int, destState: int, ghost x: Option<Namespace>)
      returns (ok: bool, finished: bool)
      requires Well() && j < |r.entries| && OnlyReplacing(r.entries[j])
      requires r.entries[j].replacement.BackupInProgress?
      requires Follows(backend.quiet, claim, x, backend.w, r)
      requires x.Some? ==>
        && EntryOnTop(r, j)
        && backupState == (if r.entries[j].backup in backend.w.ns then 1 else 0)
        && destState == (if r.entries[j].task.dest in backend.w.ns then 1 else 0)
      modifies this`r, backend`w
      ensures Well()
      ensures r == old(r) || r == WithEntry(old(r), j, Forgotten(old(r.entries[j])))
      ensures ok && finished ==> r == WithEntry(old(r), j, Forgotten(old(r.entries[j])))
      ensures ok && !finished ==> r == old(r)
      ensures Follows(backend.quiet, claim, x, backend.w, r)
      ensures x.Some? ==> EntryOnTop(r, j) && backend.w.ns == old(backend.w.ns) && (backend.reliable ==> ok)
    {
      if x.Some? { EntryDefined(backend.w.ns, r, j); }
      finished := false;
      var e := r.entries[j];
      if backupState == 0 && destState == 1 {
        ok := HoldsObject(e.task.dest, e.backupId);
        if ok {
          finished := true;
          OwnsEntry(backend.w, r, j);
          ok := AdvanceEntry(j, Forgotten(e), x);
          if ok {
            var synced := Touch();
            ok := synced == Ok;
          }
        }
      } else if backupState == 1 && destState == 0 {
        ok := HoldsObject(e.backup, e.backupId);
      } else {
        ok := false;
      }
    }

    /** The restoration from a held backup on. */
    method FinishRestore(j: nat, backupState: int, destState: int, ghost x: Option<Namespace>) returns (ok: bool)
      requires Well() && j < |r.entries| && OnlyReplacing(r.entries[j])
      requires !r.entries[j].replacement.UndoRemoveInProgress? && !r.entries[j].replacement.UndoRestoreInProgress?
      requires Follows(backend.quiet, claim, x, backend.w, r)
      requires x.Some? ==>
        && EntryOnTop(r, j)
        && backupState == (if r.entries[j].backup in backend.w.ns then 1 else 0)
        && destState == (if r.entries[j].task.dest in backend.w.ns then 1 else 0)
      modifies this`r, backend`w
      ensures Well()
      ensures j < |r.entries| && r == WithEntry(old(r), j, r.entries[j])
      ensures SameButReplacement(old(r.entries[j]), r.entries[j])
      ensures ok ==> r.entries[j] == Forgotten(old(r.entries[j]))
      ensures Follows(backend.quiet, claim, x, backend.w, r)
      ensures x.Some? ==> EntryOnTop(r, j) && (backend.reliable ==> ok)
    {
      WithEntryTwice(r, j);
      if x.Some? { RestoreStage(backend.w.ns, r, j); }
      OwnsEntry(backend.w, r, j);
      EntryKeepsSound(backend.w, r, j, r.entries[j].(replacement := RestoreInProgress));
      hide SameTasks, Recover, UndoEntry, Sound, EntryOnTop, AllGood, Reinstated;
      r := WithEntry(r, j, r.entries[j].(replacement := RestoreInProgress));
      ok := BringBack(j, backupState, destState, x);
      if ok { ok := ForgetReplacement(j, x); }
    }

    method RestoreReplacement(j: nat, ghost x: Option<Namespace>) returns (ok: bool)
      requires Well() && j < |r.entries| && OnlyReplacing(r.entries[j])
      requires Follows(backend.quiet, claim, x, backend.w, r)
      requires x.Some? ==> EntryOnTop(r, j)
      modifies this`r, backend`w
      ensures Well()
      ensures j < |r.entries| && r == WithEntry(old(r), j, r.entries[j])
      ensures SameButReplacement(old(r.entries[j]), r.entries[j])
      ensures ok ==> r.entries[j] == Forgotten(old(r.entries[j]))
      ensures Follows(backend.quiet, claim, x, backend.w, r)
      ensures x.Some? ==> EntryOnTop(r, j) && (backend.reliable ==> ok)
    {
      WithEntryTwice(r, j);
      if x.Some? {
        EntryDefined(backend.w.ns, r, j);
        ReinstatedDefined(backend.w.ns, r.entries[j]);
      }
      hide SameTasks, Recover, UndoEntry, Sound, AllGood, Reinstated, EntryOnTop;
      if !r.entries[j].backupId.Valid() { return false; }
      var destState := StateOf(r.entries[j].task.dest);
      var backupState := StateOf(r.entries[j].backup);
      if destState < 0 || backupState < 0 { return false; }
      var finished := false;
      ok := true;
      if r.entries[j].replacement.BackupInProgress? {
        ok, finished := ReconcileBackup(j, backupState, destState, x);
      } else if r.entries[j].replacement.UndoRemoveInProgress? || r.entries[j].replacement.UndoRestoreInProgress? {
        ok := false;
      }
      if ok && !finished {
        ok := FinishRestore(j, backupState, destState, x);
      }
    }

    // Rolling back.

    /** The entry's own object is removed. */
    method RollbackCreated(j: nat, ghost x: Option<Namespace>) returns (ok: bool)
      requires Well() && j < |r.entries| && r.entries[j].created
      requires Follows(backend.quiet, claim, x, backend.w, r)
      requires x.Some? ==> EntryOnTop(r, j) && !r.entries[j].applied
      modifies this`r, backend`w
      ensures Well()
      ensures j < |r.entries| && r == WithEntry(old(r), j, r.entries[j])
      ensures ok ==> r.entries[j] == Cleared(old(r.entries[j]))
      ensures SameTask(old(r.entries[j]), r.entries[j]) && r.entries[j].applied == old(r.entries[j].applied)
      ensures r.entries[j].created || !r.entries[j].objectId.HasToken()
      ensures Weight(r.entries[j]) <= old(Weight(r.entries[j]))
      ensures backend.quiet && backend.reliable && old(Deletable(backend.w.ns, r, false, j)) &&
              old(r.entries[j].cleanup.CleanupNone?) ==>
        backend.w.ns == old(backend.w.ns) - {r.entries[j].task.dest} && (old(r.entries[j].applied) ==> !ok)
      ensures Follows(backend.quiet, claim, x, backend.w, r)
      ensures x.Some? ==> EntryOnTop(r, j) && (backend.reliable ==> ok)
    {
      hide Sound, Recover, UndoEntry, AllRoll, AllGood, SettledFrom, RemoveNode, NoChildren;
      WithEntryTwice(r, j);
      ok := CleanupCreatedPath(false, j, x);
      if ok {
        if x.Some? { ClearedStep(backend.w.ns, r.entries[j]); }
        OwnsEntry(backend.w, r, j);
        ok := AdvanceEntry(j, Cleared(r.entries[j]), x);
        if ok { DurableIsSavable(backend.w, r, j); }
      }
    }

    /** Takes the object at the destination for the announced one if it carries its token. */
    method AdoptAnnounced(j: nat, ghost x: Option<Namespace>) returns (ok: bool)
      requires Well() && j < |r.entries|
      requires !r.entries[j].created && r.entries[j].objectId.HasToken()
      requires Follows(backend.quiet, claim, x, backend.w, r)
      requires x.Some? ==>
        && EntryOnTop(r, j) && r.entries[j].task.dest in backend.w.ns
        && UndoEntry(backend.w.ns, r.entries[j]).Some?
      modifies this`r, backend`w
      ensures Well() && j < |r.entries|
      ensures r == old(r) ||
        r == WithEntry(old(r), j, old(r.entries[j]).(created := true, objectId := r.entries[j].objectId))
      ensures ok ==> r.entries[j].created
      ensures backend.quiet ==> backend.w.ns == old(backend.w.ns)
      ensures backend.quiet && backend.reliable && old(Restorable(r) && StandsAt(backend.w.ns, r.entries[j])) ==>
        ok && r.entries[j].objectId == old(r.entries[j].objectId)
      ensures Follows(backend.quiet, claim, x, backend.w, r)
      ensures x.Some? ==> EntryOnTop(r, j) && (backend.reliable ==> ok)
    {
      hide Sound, Recover, AllGood, EntryOnTop, UndoEntry, AllRoll, Restorable, SavableEntry, OwnEntry, RollsExactly;
      SavableOf(r, j);
      OwnsEntry(backend.w, r, j);
      ok := false;
      var e := r.entries[j];
      if x.Some? { BornDefined(backend.w.ns, e); }
      var status, current := IdentityOf(e.task.dest);
      if status == Ok && current.Valid() && current.token == e.objectId.token &&
         (e.objectId.Valid() ==> current == e.objectId) {
        if x.Some? { BornStep(backend.w.ns, e); }
        BornFits(r.head.operation, r.head.policy, e, current, backend.w.issued);
        ok := AdvanceEntry(j, e.(created := true, objectId := current), x);
      }
    }

    /** An object announced by its token: adopt it if it exists, else forget the announcement. */
    method RollbackAnnounced(j: nat, ghost x: Option<Namespace>) returns (ok: bool, absent: bool)
      requires Well() && j < |r.entries|
      requires !r.entries[j].created && r.entries[j].objectId.HasToken()
      requires Follows(backend.quiet, claim, x, backend.w, r)
      requires x.Some? ==> EntryOnTop(r, j) && !r.entries[j].applied && r.entries[j].replacement.NotReplacing?
      modifies this`r, backend`w
      ensures Well()
      ensures j < |r.entries| && r == WithEntry(old(r), j, r.entries[j])
      ensures ok && absent ==> r.entries[j] == old(r.entries[j]).(objectId := NO_IDENTITY)
      ensures ok && !absent ==> r.entries[j] == old(r.entries[j]).(created := true, objectId := r.entries[j].objectId)
      ensures SameTask(old(r.entries[j]), r.entries[j])
      ensures r.entries[j].applied == old(r.entries[j].applied) &&
        r.entries[j].replacement == old(r.entries[j].replacement)
      ensures Weight(r.entries[j]) <= old(Weight(r.entries[j]))
      ensures backend.quiet ==> backend.w.ns == old(backend.w.ns)
      ensures (backend.quiet && backend.reliable && old(Restorable(r)) && !old(r.entries[j].applied) &&
               old(r.entries[j].task.dest !in backend.w.ns)) ==> ok && absent
      ensures backend.quiet && backend.reliable && old(Restorable(r) && StandsAt(backend.w.ns, r.entries[j])) ==>
        ok && !absent && r.entries[j].objectId == old(r.entries[j].objectId)
      ensures Follows(backend.quiet, claim, x, backend.w, r)
      ensures x.Some? ==> EntryOnTop(r, j) && (backend.reliable ==> ok)
    {
      hide Sound, Recover, AllGood, EntryOnTop, UndoEntry, AllRoll, Restorable, Cleaned, Reinstated, SavableEntry,
        OwnEntry, RollsExactly;
      WithEntryTwice(r, j);
      SavableOf(r, j);
      absent := false;
      ok := false;
      OwnsEntry(backend.w, r, j);
      if x.Some? { EntryDefined(backend.w.ns, r, j); }
      var e := r.entries[j];
      var state := StateOf(e.task.dest);
      if state == 0 {
        absent := true;
        if x.Some? { UnbornStep(backend.w.ns, e); }
        UnbornFits(r.head.operation, r.head.policy, e, backend.w.issued);
        ok := AdvanceEntry(j, e.(objectId := NO_IDENTITY), x);
      } else if state == 1 {
        ok := AdoptAnnounced(j, x);
      }
    }

    /** Renames a moved object home, as the durable record announces. */
    method RenameHome(j: nat, ghost x: Option<Namespace>) returns (ok: bool)
      requires Well() && j < |r.entries| && !r.head.operation.Copy?
      requires Follows(backend.quiet, claim, x, backend.w, r)
      requires r.entries[j].applied && r.entries[j].cleanup.RenameInProgress?
      requires x.Some? ==>
        EntryOnTop(r, j) && OnlyMoved(r.entries[j]) && r.entries[j].objectId.Valid() &&
          r.entries[j].task.source !in backend.w.ns
      requires backend.w.saved == r
      modifies backend`w
      ensures Well()
      ensures Follows(backend.quiet, claim, x, backend.w, r)
      ensures x.Some? && backend.reliable ==> ok
      ensures x.Some? && ok ==>
        r.entries[j].task.source in backend.w.ns && r.entries[j].task.dest !in backend.w.ns &&
        SameObject(backend.w.ns[r.entries[j].task.source].id, r.entries[j].objectId)
    {
      hide Sound, Recover, EntryOnTop, UndoEntry, CanMove, Moved, Lawful, Harmless, Effect, Restorable, AllRoll;
      ghost var w0 := backend.w;
      var e := r.entries[j];
      SoundIsLawful(w0, r);
      if x.Some? {
        HomewardReady(w0.ns, r, j);
        HomewardStep(w0.ns, r, j);
      }
      var status, done, deed := backend.RenameExpected(e.task.dest, e.task.source, e.objectId);
      if done { RenameHarmless(w0, r, j, deed); } else { NothingDone(w0, r); }
      ChangedSound(w0, backend.w, r);
      ok := status == Ok;
    }

    /** Brings the moved object home unless it is home already. */
    method ReturnHome(j: nat, ghost x: Option<Namespace>) returns (ok: bool)
      requires Well() && j < |r.entries| && !r.head.operation.Copy?
      requires Follows(backend.quiet, claim, x, backend.w, r)
      requires r.entries[j].applied && r.entries[j].cleanup.RenameInProgress?
      requires x.Some? ==> EntryOnTop(r, j) && OnlyMoved(r.entries[j])
      modifies this`r, backend`w
      ensures Well()
      ensures r == old(r) || r == WithEntry(old(r), j, old(r.entries[j]).(cleanup := RenameSyncPending))
      ensures ok ==> r == WithEntry(old(r), j, old(r.entries[j]).(cleanup := RenameSyncPending))
      ensures Follows(backend.quiet, claim, x, backend.w, r)
      ensures x.Some? ==> EntryOnTop(r, j) && (backend.reliable ==> ok)
    {
      hide Sound, Recover, EntryOnTop, UndoEntry, AllGood, AllRoll, Restorable, CanMove;
      if x.Some? { HomewardReady(backend.w.ns, r, j); }
      var e := r.entries[j];
      OwnsEntry(backend.w, r, j);
      SavableOf(r, j);
      ok := Checkpoint(x);
      if !ok { return; }
      var sourceState := StateOf(e.task.source);
      var destState := StateOf(e.task.dest);
      if sourceState == 0 && destState == 1 {
        ok := HoldsObject(e.task.dest, e.objectId);
        if ok { ok := RenameHome(j, x); }
      } else if sourceState == 1 && destState == 0 {
        ok := HoldsObject(e.task.source, e.objectId);
      } else {
        ok := false;
      }
      if ok {
        if x.Some? { HomeStages(backend.w.ns, e); }
        ok := AdvanceEntry(j, e.(cleanup := RenameSyncPending), x);
      }
    }

    method RollbackApplied(j: nat, ghost x: Option<Namespace>) returns (ok: bool)
      requires Well() && j < |r.entries| && !r.head.operation.Copy?
      requires r.entries[j].applied
      requires Follows(backend.quiet, claim, x, backend.w, r)
      requires x.Some? ==> EntryOnTop(r, j) && OnlyMoved(r.entries[j])
      modifies this`r, backend`w
      ensures Well()
      ensures j < |r.entries| && r == WithEntry(old(r), j, old(r.entries[j]).(cleanup := r.entries[j].cleanup))
      ensures ok ==> r.entries[j].cleanup.RenameSyncPending? && r.entries[j].objectId.Valid()
      ensures old(r.entries[j].cleanup).RenameSyncPending? && old(r.entries[j].objectId).Valid() ==>
        ok && r == old(r) && backend.w == old(backend.w)
      ensures Follows(backend.quiet, claim, x, backend.w, r)
      ensures x.Some? ==> EntryOnTop(r, j) && (backend.reliable ==> ok)
    {
      hide Sound, Recover, UndoEntry, MovedHome, AllGood, AllRoll, Restorable, EntryOnTop, Follows;
      var e := r.entries[j];
      WithEntryTwice(r, j);
      if x.Some? { HomewardReached(backend.quiet, claim, backend.w, r, j, x); }
      if !e.objectId.Valid() { return false; }
      if e.cleanup.CleanupNone? {
        HomewardFollows(backend.quiet, claim, backend.w, r, j, x);
        r := WithEntry(r, j, e.(cleanup := RenameInProgress));
      }
      ok := true;
      if r.entries[j].cleanup.RenameInProgress? {
        ok := ReturnHome(j, x);
      }
      ok := ok && r.entries[j].cleanup.RenameSyncPending?;
    }

    /** The last step of bringing a moved object home: sync both directories and forget the move. */
    method SettleHome(ghost x: Option<Namespace>) returns (ok: bool)
      requires Well() && 0 != r.head.rollbackIndex <= |r.entries| && !r.head.operation.Copy?
      requires
        var e := r.entries[r.head.rollbackIndex - 1];
        e.applied && !e.created && e.cleanup.RenameSyncPending? && e.objectId.Valid()
      requires Follows(backend.quiet, claim, x, backend.w, r)
      requires x.Some? ==>
        EntryOnTop(r, r.head.rollbackIndex - 1) && OnlyMoved(r.entries[r.head.rollbackIndex - 1])
      modifies this`r, backend`w
      ensures Well()
      ensures
        var next := Stepped(old(r), Home(old(r.entries[r.head.rollbackIndex - 1])), true);
        if ok then r == next else r == next || r == old(r)
      ensures Follows(backend.quiet, claim, x, backend.w, r)
      ensures backend.reliable && (x.Some? || old(Restorable(r))) ==> ok
      ensures backend.quiet ==> backend.w.ns == old(backend.w.ns)
    {
      hide Recover, UndoEntry, AllGood, Sound, Restorable, AllRoll, EntryOnTop;
      var j := r.head.rollbackIndex - 1;
      var synced := Touch();
      if synced == Ok { synced := Touch(); }
      if synced != Ok {
        ok := false;
      } else {
        HomeSettled(backend.w, r, x);
        r := Stepped(r, Home(r.entries[j]), true);
        ok := Checkpoint(x);
      }
    }

    // The turns of the rollback loop: -1 failed, 1 made progress.

    method StepCreated(ghost x: Option<Namespace>) returns (step: int)
      requires Well() && r.head.rollbackIndex != 0 && r.entries[r.head.rollbackIndex - 1].created
      requires Follows(backend.quiet, claim, x, backend.w, r)
      requires x.Some? ==> Rollable(r) && !r.tempCreated
      modifies this`r, backend`w
      ensures Well() && Follows(backend.quiet, claim, x, backend.w, r)
      ensures SameShape(old(r), r) && Work(r) <= old(Work(r)) && (step == 1 ==> Work(r) < old(Work(r)))
      ensures x.Some? ==> Rollable(r) && (backend.reliable ==> step != -1)
      ensures backend.quiet && backend.reliable && old(Restorable(r)) ==>
        LimitTurn(old(backend.w.ns), old(r), backend.w.ns, r, step)
      ensures step == -1 || step == 1
    {
      hide SameTasks, Recover, Work, Rollable, AllGood, Sound, Restorable, LimitTurn, EntryOnTop;
      IndexInBounds(backend.w, r);
      var j := r.head.rollbackIndex - 1;
      ghost var r0 := r;
      if x.Some? { RollableOnTop(r); }
      var ok := RollbackCreated(j, x);
      StepTo(r0, r.entries[j], false);
      StepTo(r0, r.entries[j], true);
      step := if ok then 1 else -1;
      CreatedLimit(old(backend.w.ns), r0, backend.w.ns, step);
      var below := ok && r.entries[j].replacement.NotReplacing?;
      assert r == Stepped(r0, r.entries[j], false);
      BelowKeepsSound(backend.w, r);
      if below { r := Below(r); }
      assert r == Stepped(r0, r.entries[j], below);
    }

    method StepAnnounced(ghost x: Option<Namespace>) returns (step: int)
      requires Well() && r.head.rollbackIndex != 0
      requires !r.entries[r.head.rollbackIndex - 1].created && r.entries[r.head.rollbackIndex - 1].objectId.HasToken()
      requires Follows(backend.quiet, claim, x, backend.w, r)
      requires x.Some? ==> Rollable(r) && !r.tempCreated
      modifies this`r, backend`w
      ensures Well() && Follows(backend.quiet, claim, x, backend.w, r)
      ensures SameShape(old(r), r) && Work(r) <= old(Work(r)) && (step == 1 ==> Work(r) < old(Work(r)))
      ensures x.Some? ==> Rollable(r) && (backend.reliable ==> step != -1)
      ensures backend.quiet && backend.reliable && old(Restorable(r)) ==>
        LimitTurn(old(backend.w.ns), old(r), backend.w.ns, r, step)
      ensures step == -1 || step == 1
    {
      hide SameTasks, Recover, Work, Rollable, AllGood, Sound, Restorable, LimitTurn, EntryOnTop;
      IndexInBounds(backend.w, r);
      var j := r.head.rollbackIndex - 1;
      ghost var r0 := r;
      if x.Some? { RollableOnTop(r); }
      var ok, absent := RollbackAnnounced(j, x);
      StepTo(r0, r.entries[j], false);
      StepTo(r0, r.entries[j], true);
      step := if ok then 1 else -1;
      var below := ok && absent;
      assert r == Stepped(r0, r.entries[j], false);
      BelowKeepsSound(backend.w, r);
      if below { r := Below(r); }
      assert r == Stepped(r0, r.entries[j], below);
      if backend.quiet && backend.reliable && Restorable(r0) {
        AnnouncedLimit(old(backend.w.ns), r0, backend.w.ns, r, step);
      }
    }

    method StepApplied(ghost x: Option<Namespace>) returns (step: int)
      requires Well() && r.head.rollbackIndex != 0 && r.entries[r.head.rollbackIndex - 1].applied
      requires !r.entries[r.head.rollbackIndex - 1].created && !r.entries[r.head.rollbackIndex - 1].objectId.HasToken()
      requires Follows(backend.quiet, claim, x, backend.w, r)
      requires x.Some? ==> Rollable(r) && !r.tempCreated
      modifies this`r, backend`w
      ensures Well() && Follows(backend.quiet, claim, x, backend.w, r)
      ensures SameShape(old(r), r) && Work(r) <= old(Work(r)) && (step == 1 ==> Work(r) < old(Work(r)))
      ensures x.Some? ==> Rollable(r) && (backend.reliable ==> step != -1)
      ensures backend.quiet && backend.reliable && old(Restorable(r)) ==>
        LimitTurn(old(backend.w.ns), old(r), backend.w.ns, r, step)
      ensures step == -1 || step == 1
    {
      hide SameTasks, Recover, Work, Rollable, AllGood, EntryOnTop, Sound, LimitTurn, Restorable, AllRoll, UndoEntry;
      IndexInBounds(backend.w, r);
      var j := r.head.rollbackIndex - 1;
      ghost var r0 := r;
      if x.Some? { RollableOnTop(r); }
      OwnsEntry(backend.w, r, j);
      WithEntryTwice(r0, j);
      var ok := RollbackApplied(j, x);
      StepTo(r0, r.entries[j], false);
      StepTo(r0, Home(r0.entries[j]), true);
      assert r == Stepped(r0, r.entries[j], false);
      assert ok ==> Stepped(r, Home(r.entries[j]), true) == Stepped(r0, Home(r0.entries[j]), true);
      if ok { ok := SettleHome(x); }
      step := if ok then 1 else -1;
      if backend.quiet && backend.reliable && Restorable(r0) {
        AppliedLimit(old(backend.w.ns), r0, backend.w.ns, r, step);
      }
    }

    method StepReplacing(ghost x: Option<Namespace>) returns (step: int)
      requires Well() && r.head.rollbackIndex != 0 && OnlyReplacing(r.entries[r.head.rollbackIndex - 1])
      requires Follows(backend.quiet, claim, x, backend.w, r)
      requires x.Some? ==> Rollable(r) && !r.tempCreated
      modifies this`r, backend`w
      ensures Well() && Follows(backend.quiet, claim, x, backend.w, r)
      ensures SameShape(old(r), r) && Work(r) <= old(Work(r)) && (step == 1 ==> Work(r) < old(Work(r)))
      ensures x.Some? ==> Rollable(r) && (backend.reliable ==> step != -1)
      ensures backend.quiet && backend.reliable && old(Restorable(r)) ==>
        LimitTurn(old(backend.w.ns), old(r), backend.w.ns, r, step)
      ensures step == -1 || step == 1
    {
      var j := r.head.rollbackIndex - 1;
      ghost var r0 := r;
      if x.Some? { RollableOnTop(r); }
      var ok := RestoreReplacement(j, x);
      StepTo(r0, r.entries[j], false);
      step := if ok then 1 else -1;
      assert r == Stepped(r0, r.entries[j], false);
    }

    /** An entry with nothing left to undo is left behind. */
    method StepNothing(ghost x: Option<Namespace>)
      requires Well() && r.head.rollbackIndex != 0 && Settled(r.entries[r.head.rollbackIndex - 1])
      requires Follows(backend.quiet, claim, x, backend.w, r)
      requires x.Some? ==> Rollable(r)
      modifies this`r
      ensures Well() && Follows(backend.quiet, claim, x, backend.w, r)
      ensures r == Below(old(r)) && Work(r) == old(Work(r)) && SameShape(old(r), r)
      ensures x.Some? ==> Rollable(r)
    {
      ghost var e := r.entries[r.head.rollbackIndex - 1];
      StepTo(r, e, true);
      WithEntryTwice(r, r.head.rollbackIndex - 1);
      assert Below(r) == Stepped(r, e, true);
      BelowKeepsSound(backend.w, r);
      hide Recover, Work, Rollable, AllGood, Sound, Restorable;
      r := Below(r);
    }

    /** One turn of the rollback loop on the entry under the rollback index. */
    method RollbackEntry(ghost x: Option<Namespace>) returns (step: int)
      requires Well() && r.head.rollbackIndex != 0 && !Settled(r.entries[r.head.rollbackIndex - 1])
      requires Follows(backend.quiet, claim, x, backend.w, r)
      requires x.Some? ==> Rollable(r) && !r.tempCreated
      modifies this`r, backend`w
      ensures Well() && Follows(backend.quiet, claim, x, backend.w, r)
      ensures SameShape(old(r), r) && Work(r) <= old(Work(r)) && (step == 1 ==> Work(r) < old(Work(r)))
      ensures x.Some? ==> Rollable(r) && (backend.reliable ==> step != -1)
      ensures backend.quiet && backend.reliable && old(Restorable(r)) ==>
        LimitTurn(old(backend.w.ns), old(r), backend.w.ns, r, step)
      ensures step == -1 || step == 1
    {
      assert r.head.rollbackIndex <= |r.entries|;
      hide Sound, Follows, Rollable, Work, Below, SameShape, Restorable, LimitTurn;
      var e := r.entries[r.head.rollbackIndex - 1];
      if e.created {
        step := StepCreated(x);
      } else if e.objectId.HasToken() {
        step := StepAnnounced(x);
      } else if e.applied {
        step := StepApplied(x);
      } else {
        step := StepReplacing(x);
      }
    }

    /** Removes the temporary object and forgets it. */
    method RollbackTemp(ghost x: Option<Namespace>) returns (ok: bool)
      requires Well() && r.head.operation.Copy? && r.tempCreated
      requires Follows(backend.quiet, claim, x, backend.w, r)
      modifies this`r, backend`w
      ensures Well() && Follows(backend.quiet, claim, x, backend.w, r)
      ensures r.head == old(r.head) && r.entries == old(r.entries) && (ok ==> !r.tempCreated) && Work(r) <= old(Work(r))
      ensures x.Some? && backend.reliable ==> ok
      ensures backend.quiet && old(Blocked(backend.w.ns, r)) ==>
        !ok && Blocked(backend.w.ns, r) && backend.w == old(backend.w)
    {
      ok := CleanupCreatedPath(true, 0, x);
      if ok {
        if x.Some? { TempClearedStep(backend.w.ns, r); }
        r := TempCleared(r);
        ok := Checkpoint(x);
      }
    }

    /** Passes over entries with nothing left to undo, down to the first that has something. */
    method RollbackEntries(ghost x: Option<Namespace>) returns (step: int)
      requires Well() && !r.tempCreated
      requires Follows(backend.quiet, claim, x, backend.w, r)
      requires x.Some? ==> Rollable(r)
      modifies this`r, backend`w
      ensures Well() && Follows(backend.quiet, claim, x, backend.w, r)
      ensures SamePlan(old(r), r) && (step == -1 || step == 0 || step == 1) && Work(r) <= old(Work(r))
      ensures step == 1 ==> Work(r) < old(Work(r))
      ensures x.Some? ==> Rollable(r) && (step == 0 ==> backend.w.ns == x.value)
      ensures (backend.quiet && backend.reliable && old(Restorable(r) && !r.tempCreated && r.head.rollbackIndex != 0) &&
               !old(Settled(r.entries[r.head.rollbackIndex - 1]))) ==>
        LimitTurn(old(backend.w.ns), old(r), backend.w.ns, r, step)
      ensures old(r.head.rollbackIndex) == 0 ==> step == 0 && r == old(r) && backend.w == old(backend.w)
      ensures x.Some? && backend.reliable ==> step != -1
    {
      hide Recover, AllGood, Sound, Work, Rollable, Restorable, LimitTurn;
      IndexInBounds(backend.w, r);
      while r.head.rollbackIndex != 0 && Settled(r.entries[r.head.rollbackIndex - 1])
        invariant Well() && Follows(backend.quiet, claim, x, backend.w, r)
        invariant r.head.rollbackIndex <= old(r.head.rollbackIndex) <= |r.entries| && !r.tempCreated
        invariant SamePlan(old(r), r) && Work(r) == old(Work(r)) && backend.w == old(backend.w)
        invariant r.head.rollbackIndex == old(r.head.rollbackIndex) ==> r == old(r)
        invariant r.head.rollbackIndex < old(r.head.rollbackIndex) ==> old(Settled(r.entries[r.head.rollbackIndex - 1]))
        invariant x.Some? ==> Rollable(r)
        decreases r.head.rollbackIndex
      {
        StepNothing(x);
      }
      step := 0;
      if r.head.rollbackIndex != 0 {
        step := RollbackEntry(x);
      } else if x.Some? {
        NothingRollable(backend.w.ns, r);
      }
    }

    /** Rolls back by at most one recorded action: 1 when there was one, 0 when nothing is left. */
    method RollbackStep(ghost x: Option<Namespace>) returns (step: int)
      requires Well()
      requires Follows(backend.quiet, claim, x, backend.w, r)
      requires x.Some? ==> Rollable(r)
      modifies this`r, this`sourceHandle, this`tempHandle, this`fileOpen, backend`w
      ensures Well() && Follows(backend.quiet, claim, x, backend.w, r)
      ensures SamePlan(old(r), r) && (step == -1 || step == 0 || step == 1) && Work(r) <= old(Work(r))
      ensures step == 1 ==> Work(r) < old(Work(r))
      ensures x.Some? ==> Rollable(r) && (step == 0 ==> backend.w.ns == x.value)
      ensures (backend.quiet && backend.reliable && old(Restorable(r) && !r.tempCreated && r.head.rollbackIndex != 0) &&
               !old(Settled(r.entries[r.head.rollbackIndex - 1]))) ==>
        LimitTurn(old(backend.w.ns), old(r), backend.w.ns, r, step)
      ensures backend.quiet && backend.reliable && old(r.head.rollbackIndex == 0 && !r.tempCreated) ==>
        step == 0 && r == old(r) && backend.w == old(backend.w)
      ensures x.Some? && backend.reliable ==> step != -1
      ensures backend.quiet && old(Blocked(backend.w.ns, r)) ==>
        step == -1 && Blocked(backend.w.ns, r) && backend.w == old(backend.w) && r.entries == old(r.entries)
    {
      hide Recover, AllGood, Own, Harmless, Lawful, Restorable;
      TempOfCopy(backend.w, r);
      var closed := CloseFiles();
      if !closed {
        step := -1;
      } else if r.head.operation.Copy? && r.tempCreated {
        var ok := RollbackTemp(x);
        step := if ok then 1 else -1;
      } else {
        step := RollbackEntries(x);
      }
    }

    /** Replaces the header of the record. */
    method SetHead(h: Header, ghost x: Option<Namespace>)
      requires Well() && h.operation == r.head.operation && h.policy == r.head.policy
      requires h.entryIndex <= |r.entries| && h.rollbackIndex <= |r.entries|
      modifies this`r
      ensures Well() && r == WithHead(old(r), h)
      ensures AllRoll(r) == old(AllRoll(r)) && Blocked(backend.w.ns, r) == old(Blocked(backend.w.ns, r))
      ensures old(Follows(backend.quiet, claim, x, backend.w, r)) ==> Ended(backend.quiet, claim, x, backend.w, r)
      ensures (h.active || h.recoveryRequired) && old(Follows(backend.quiet, claim, x, backend.w, r)) ==>
        Follows(backend.quiet, claim, x, backend.w, r)
      ensures (h.active || h.recoveryRequired) && old(Stands(backend.quiet, claim, x, backend.w, r)) ==>
        Stands(backend.quiet, claim, x, backend.w, r)
    {
      HeadStep(backend.w.ns, r, h);
      hide SameTasks, Recover, Blocked, AllGood, AllRoll, Restorable;
      r := WithHead(r, h);
    }

    /** A rollback step from a state in which recovery may be blocked. */
    method RollbackOnce(ghost x: Option<Namespace>) returns (step: int)
      requires Well()
      requires Stands(backend.quiet, claim, x, backend.w, r)
      requires x.Some? ==> Blocked(backend.w.ns, r) || Rollable(r)
      modifies this`r, this`sourceHandle, this`tempHandle, this`fileOpen, backend`w
      ensures Well() && SamePlan(old(r), r) && (step == -1 || step == 0 || step == 1) && Work(r) <= old(Work(r))
      ensures Stands(backend.quiet, claim, x, backend.w, r)
      ensures step == 1 ==> Work(r) < old(Work(r))
      ensures x.Some? && !old(Blocked(backend.w.ns, r)) ==>
        Follows(backend.quiet, claim, x, backend.w, r) && Rollable(r)
      ensures x.Some? && step == 0 ==> backend.w.ns == x.value
      ensures x.Some? && backend.reliable && !old(Blocked(backend.w.ns, r)) ==> step != -1
      ensures backend.quiet && old(Blocked(backend.w.ns, r)) ==> step == -1 && Blocked(backend.w.ns, r)
    {
      ghost var y := if Blocked(backend.w.ns, r) then None else x;
      assert Blocked(backend.w.ns, r) ==> r.head.operation.Copy?;
      hide SameTasks, Recover, Blocked, Rollable, AllGood, Lawful, Own, Harmless, Restorable;
      step := RollbackStep(y);
    }

    /** One rollback step with the header as the callers leave it: the operation stays active while
        there is more to do, and asks for recovery when the step failed. */
    method RollbackTurn(result: Result, ghost x: Option<Namespace>) returns (res: Result, step: int)
      requires Well()
      requires Stands(backend.quiet, claim, x, backend.w, r)
      requires x.Some? ==> Blocked(backend.w.ns, r) || Rollable(r)
      modifies this`r, this`sourceHandle, this`tempHandle, this`fileOpen, backend`w
      ensures Well() && SameJob(old(r), r)
      ensures step != 0 ==> Stands(backend.quiet, claim, x, backend.w, r)
      ensures x.Some? ==> AllGood(claim, x.value, backend.w.history)
      ensures step == -1 || step == 0 || step == 1
      ensures step == -1 ==> res == RollbackFailed && !r.head.active && r.head.recoveryRequired
      ensures step == 1 ==> res == InProgress && r.head == old(r.head).(rollbackIndex := r.head.rollbackIndex)
      ensures Work(r) <= old(Work(r)) && (step == 1 ==> Work(r) < old(Work(r)))
      ensures step == 0 ==>
        res == result && !r.head.active && !r.head.rollbackActive && !r.head.recoveryRequired
      ensures x.Some? && step != 0 && !old(Blocked(backend.w.ns, r)) ==>
        Follows(backend.quiet, claim, x, backend.w, r) && Rollable(r)
      ensures x.Some? && step == 0 ==> backend.w.ns == x.value
      ensures x.Some? && backend.reliable && !old(Blocked(backend.w.ns, r)) ==> step != -1
      ensures backend.quiet && old(Blocked(backend.w.ns, r)) ==> step == -1 && Blocked(backend.w.ns, r)
    {
      hide SameTasks, Recover, Blocked, Rollable, AllGood, Lawful, Own, Harmless, Restorable, Work, AllRoll;
      step := RollbackOnce(x);
      if step < 0 {
        HeadRolls(r, r.head.(active := false, recoveryRequired := true));
        SetHead(r.head.(active := false, recoveryRequired := true), x);
        res := RollbackFailed;
      } else if step > 0 {
        res := InProgress;
      } else {
        HeadRolls(r, r.head.(active := false, rollbackActive := false, recoveryRequired := false));
        SetHead(r.head.(active := false, rollbackActive := false, recoveryRequired := false), x);
        res := result;
      }
    }

    /** Gives up on the forward run with `result` and starts rolling back. */
    method FinishFailure(result: Result, ghost x: Option<Namespace>) returns (res: Result, step: int)
      requires Well()
      requires Stands(backend.quiet, claim, x, backend.w, r)
      modifies this`r, this`sourceHandle, this`tempHandle, this`fileOpen, backend`w
      ensures Well() && SameJob(old(r), r)
      ensures step != 0 ==> Stands(backend.quiet, claim, x, backend.w, r)
      ensures x.Some? ==> AllGood(claim, x.value, backend.w.history)
      ensures step == -1 || step == 0 || step == 1
      ensures step == -1 ==> res == RollbackFailed && !r.head.active && r.head.recoveryRequired
      ensures step == 1 ==> res == InProgress && r.head.active && r.head.rollbackActive && r.head.pending == result
      ensures step == 0 ==>
        res == result && !r.head.active && !r.head.rollbackActive && !r.head.recoveryRequired
      ensures x.Some? && step == 1 ==> Follows(backend.quiet, claim, x, backend.w, r) && Rollable(r)
      ensures x.Some? && step == 0 ==> backend.w.ns == x.value
      ensures x.Some? && backend.reliable && !old(Blocked(backend.w.ns, r)) ==> step != -1
    {
      hide Recover, Blocked, Lawful, Own, Harmless, Restorable;
      SetHead(r.head.(pending := result, rollbackActive := true, rollbackIndex := |r.entries|, active := true), x);
      var ok := Checkpoint(x);
      if ok {
        res, step := RollbackTurn(result, x);
      } else {
        SetHead(r.head.(active := false, recoveryRequired := true), x);
        res, step := RollbackFailed, -1;
      }
    }
  }
}
