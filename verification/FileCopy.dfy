/** The forward half of a copy. */
module FileCopy {
  import opened Common
  import opened Namespaces
  import opened UndoSpec
  import opened ForwardSpec
  import opened FileBackend
  import opened FileOperations
  import opened CopyStream

  /** An entry the run has not touched. */
  predicate Pristine(e: Entry) {
    Settled(e) && e.cleanup.CleanupNone? && e.objectId == NO_IDENTITY
  }

  // What stands in the way at the destination.

  /** The object at the destination is the recorded one and can be moved to the backup path. */
  predicate Displaceable(ns: Namespace, e: Entry) {
    CanMove(ns, e.task.dest, e.backup) && SameObject(ns[e.task.dest].id, e.backupId)
  }

  /** The object at the destination has gone to the entry's backup path. */
  predicate MovedAway(ns: Namespace, e: Entry, ns': Namespace) {
    && CanMove(ns, e.task.dest, e.backup) && ns' == Moved(ns, e.task.dest, e.backup)
    && e.backupId == ns[e.task.dest].id
  }

  /** What was displaced went to the path that was proposed for it. */
  predicate BackedEntry(proposal: Proposal, e: Entry) {
    e.replacement.NotReplacing? || proposal(e.task.dest, e.backupId) == Some(e.backup)
  }

  predicate Backed(proposal: Proposal, entries: seq<Entry>) {
    forall j :: 0 <= j < |entries| ==> BackedEntry(proposal, entries[j])
  }

  predicate KeepsBacked(proposal: Proposal, a: seq<Entry>, b: seq<Entry>) {
    Backed(proposal, a) ==> Backed(proposal, b)
  }

  lemma BackedUpdate(proposal: Proposal, a: seq<Entry>, b: seq<Entry>, i: nat)
    requires i < |a| == |b| && b == a[i := b[i]] && (BackedEntry(proposal, a[i]) ==> BackedEntry(proposal, b[i]))
    ensures KeepsBacked(proposal, a, b)
  {
  }

  lemma BackedThrough(proposal: Proposal, a: seq<Entry>, b: seq<Entry>, c: seq<Entry>)
    requires KeepsBacked(proposal, a, b) && KeepsBacked(proposal, b, c)
    ensures KeepsBacked(proposal, a, c)
  {
  }

  lemma BackedSame(proposal: Proposal, a: seq<Entry>)
    ensures KeepsBacked(proposal, a, a)
  {
  }

  /** Moves the object at the destination to its backup path, as the durable record announces. */
  method RenameAway(op: Operation, i: nat, ghost x: Option<Namespace>) returns (status: Status)
    requires op.Well() && i < |op.r.entries| && op.r.head.operation.Copy? && op.r.head.policy.ConflictReplace?
    requires op.r.entries[i].replacement.BackupInProgress? && op.backend.w.saved == op.r
    requires Follows(op.backend.quiet, op.claim, x, op.backend.w, op.r)
    requires x.Some? ==> EntryOnTop(op.r, i) && Displaced(op.r.entries[i])
    modifies op.backend`w
    ensures op.Well() && op.backend.w.issued == old(op.backend.w.issued)
    ensures Follows(op.backend.quiet, op.claim, x, op.backend.w, op.r)
    ensures x.Some? && status == Ok ==> op.r.entries[i].task.dest !in op.backend.w.ns
    ensures op.backend.quiet && status == Ok ==> MovedAway(old(op.backend.w.ns), op.r.entries[i], op.backend.w.ns)
    ensures op.backend.quiet && op.backend.reliable && Displaceable(old(op.backend.w.ns), op.r.entries[i]) ==>
      status == Ok
  {
    hide Sound, Recover, EntryOnTop, UndoEntry, Reinstated, Moved, Restorable, AllRoll, Lawful, Harmless, Effect,
      Closed;
    ghost var w0 := op.backend.w;
    var e := op.r.entries[i];
    SoundIsLawful(w0, op.r);
    if x.Some? && CanMove(w0.ns, e.task.dest, e.backup) && SameObject(w0.ns[e.task.dest].id, e.backupId) {
      DisplacedStep(w0.ns, op.r, i);
    }
    ghost var done, deed;
    status, done, deed := op.backend.RenameExpected(e.task.dest, e.backup, e.backupId);
    if done { RenameHarmless(w0, op.r, i, deed); } else { NothingDone(w0, op.r); }
    ChangedSound(w0, op.backend.w, op.r);
  }

  /** What resolving a conflict may change of an entry. */
  predicate SameButConflict(a: Entry, b: Entry) {
    b == a.(skip := b.skip, replacement := b.replacement, backup := b.backup, backupId := b.backupId)
  }

  /** Renames the object away and records that it is held. */
  method HoldBackup(op: Operation, i: nat, ghost x: Option<Namespace>) returns (res: Result)
    requires op.Well() && i < |op.r.entries| && op.r.head.operation.Copy? && op.r.head.policy.ConflictReplace?
    requires op.r.entries[i].replacement.BackupInProgress? && op.backend.w.saved == op.r
    requires Follows(op.backend.quiet, op.claim, x, op.backend.w, op.r)
    requires x.Some? ==> EntryOnTop(op.r, i) && Displaced(op.r.entries[i])
    modifies op`r, op.backend`w
    ensures op.Well()
    ensures op.r == old(op.r) || op.r == WithEntry(old(op.r), i, old(op.r.entries[i]).(replacement := BackupHeld))
    ensures Follows(op.backend.quiet, op.claim, x, op.backend.w, op.r)
    ensures x.Some? ==> EntryOnTop(op.r, i)
    ensures x.Some? && res == OK ==>
      op.r.entries[i].replacement.BackupHeld? && op.r.entries[i].task.dest !in op.backend.w.ns
    ensures op.backend.quiet && res == OK ==> MovedAway(old(op.backend.w.ns), op.r.entries[i], op.backend.w.ns)
    ensures op.backend.quiet && op.backend.reliable && old(Displaceable(op.backend.w.ns, op.r.entries[i])) ==> res == OK
  {
    hide Sound, Recover, UndoEntry, EntryOnTop, AllGood, Restorable, AllRoll, Displaceable, CanMove, Moved;
    var e := op.r.entries[i];
    OwnsEntry(op.backend.w, op.r, i);
    SavableOf(op.r, i);
    var status := RenameAway(op, i, x);
    if status == Ok { status := op.Touch(); }
    if status != Ok {
      res := ResultOf(status);
    } else {
      if x.Some? { HeldStep(op.backend.w.ns, e); }
      var ok := op.AdvanceEntry(i, e.(replacement := BackupHeld), x);
      res := if ok then OK else IoFailed;
    }
  }

  /** Announces the displacement and carries it out. */
  method Displace(op: Operation, i: nat, backup: Path, id: Identity, ghost x: Option<Namespace>) returns (res: Result)
    requires op.Well() && i < |op.r.entries| && op.r.head.operation.Copy? && op.r.head.policy.ConflictReplace?
    requires backup != [] && id.Valid()
    requires Follows(op.backend.quiet, op.claim, x, op.backend.w, op.r)
    requires x.Some? ==>
      && EntryOnTop(op.r, i) && Pristine(op.r.entries[i]) && backup !in op.backend.w.ns
      && op.r.entries[i].task.dest in op.backend.w.ns && op.backend.w.ns[op.r.entries[i].task.dest].id == id
    modifies op`r, op.backend`w
    ensures op.Well()
    ensures i < |op.r.entries| && op.r == WithEntry(old(op.r), i, op.r.entries[i])
    ensures SameButConflict(old(op.r.entries[i]), op.r.entries[i]) && op.r.entries[i].skip == old(op.r.entries[i].skip)
    ensures Follows(op.backend.quiet, op.claim, x, op.backend.w, op.r)
    ensures x.Some? ==> EntryOnTop(op.r, i)
    ensures x.Some? && res == OK ==>
      op.r.entries[i].replacement.BackupHeld? && op.r.entries[i].task.dest !in op.backend.w.ns
    ensures op.r.entries[i].backup == backup && op.r.entries[i].backupId == id
    ensures op.backend.quiet && res == OK ==> MovedAway(old(op.backend.w.ns), op.r.entries[i], op.backend.w.ns)
    ensures (op.backend.quiet && op.backend.reliable &&
             old(Displaceable(op.backend.w.ns, Displacing(op.r.entries[i], backup, id)))) ==> res == OK
  {
    hide Recover, UndoEntry, Reinstated, EntryOnTop, AllGood, Sound, AllRoll, Restorable, Displaceable, CanMove, Moved;
    var d := Displacing(op.r.entries[i], backup, id);
    OwnsEntry(op.backend.w, op.r, i);
    WithEntryTwice(op.r, i);
    if x.Some? { DisplacingStep(op.backend.w.ns, op.r.entries[i], backup); }
    var ok := op.AdvanceEntry(i, d, x);
    if !ok {
      res := IoFailed;
    } else {
      res := HoldBackup(op, i, x);
    }
  }

  /** The service proposes a free backup path that the object at the destination can be moved to. */
  predicate ProposalFits(ns: Namespace, e: Entry, proposal: Proposal) {
    && e.task.dest in ns && ns[e.task.dest].id.Valid()
    && match proposal(e.task.dest, ns[e.task.dest].id)
       case None => false
       case Some(backup) =>
         backup != [] && backup != e.task.dest && backup != e.task.source && CanMove(ns, e.task.dest, backup)
  }

  lemma FitsDisplace(ns: Namespace, e: Entry, proposal: Proposal)
    ensures ProposalFits(ns, e, proposal) ==>
      var id := ns[e.task.dest].id;
      proposal(e.task.dest, id).value !in ns && Displaceable(ns, Displacing(e, proposal(e.task.dest, id).value, id))
  {
  }

  /** Backs up the object at the destination of entry `i`. */
  method BackUp(op: Operation, i: nat, ghost x: Option<Namespace>) returns (res: Result)
    requires op.Well() && i < |op.r.entries| && op.r.head.operation.Copy? && op.r.head.policy.ConflictReplace?
    requires Follows(op.backend.quiet, op.claim, x, op.backend.w, op.r)
    requires x.Some? ==> EntryOnTop(op.r, i) && Pristine(op.r.entries[i])
    modifies op`r, op.backend`w
    ensures op.Well()
    ensures i < |op.r.entries| && op.r == WithEntry(old(op.r), i, op.r.entries[i])
    ensures SameButConflict(old(op.r.entries[i]), op.r.entries[i]) && op.r.entries[i].skip == old(op.r.entries[i].skip)
    ensures Follows(op.backend.quiet, op.claim, x, op.backend.w, op.r)
    ensures x.Some? ==> EntryOnTop(op.r, i)
    ensures x.Some? && res == OK ==>
      op.r.entries[i].replacement.BackupHeld? && op.r.entries[i].task.dest !in op.backend.w.ns
    ensures BackedEntry(op.backend.proposal, old(op.r.entries[i])) ==>
      BackedEntry(op.backend.proposal, op.r.entries[i])
    ensures op.backend.quiet && res == OK ==> MovedAway(old(op.backend.w.ns), op.r.entries[i], op.backend.w.ns)
    ensures (op.backend.quiet && op.backend.reliable &&
             old(ProposalFits(op.backend.w.ns, op.r.entries[i], op.backend.proposal))) ==>
      res == OK
  {
    hide Recover, UndoEntry, EntryOnTop, Sound, AllRoll, Restorable, AllGood, CanMove, Displaceable, Interrupted;
    hide MovedAway;
    var e := op.r.entries[i];
    WithEntryTwice(op.r, i);
    FitsDisplace(op.backend.w.ns, e, op.backend.proposal);
    var status, id := op.IdentityOf(e.task.dest);
    if status != Ok || !id.Valid() {
      res := if status == Ok then IoFailed else ResultOf(status);
    } else {
      var proposal := op.backend.proposal(e.task.dest, id);
      if proposal.None? || proposal.value == [] || proposal.value == e.task.dest || proposal.value == e.task.source {
        res := Conflicted;
      } else {
        var backup := proposal.value;
        var state := op.StateOf(backup);
        if state != 0 {
          res := Conflicted;
        } else {
          res := Displace(op, i, backup, id, x);
        }
      }
    }
  }

  /** Looks at the destination of entry `i` and does what the conflict policy says. */
  method Conflict(op: Operation, i: nat, ghost x: Option<Namespace>) returns (res: Result)
    requires op.Well() && i < |op.r.entries|
    requires Follows(op.backend.quiet, op.claim, x, op.backend.w, op.r)
    requires x.Some? ==> EntryOnTop(op.r, i) && Pristine(op.r.entries[i])
    modifies op`r, op.backend`w
    ensures op.Well()
    ensures i < |op.r.entries| && op.r == WithEntry(old(op.r), i, op.r.entries[i])
    ensures SameButConflict(old(op.r.entries[i]), op.r.entries[i])
    ensures Follows(op.backend.quiet, op.claim, x, op.backend.w, op.r)
    ensures x.Some? ==> EntryOnTop(op.r, i)
    ensures x.Some? && res == OK && !op.r.entries[i].skip ==>
      Underway(op.r.entries[i]) && op.r.entries[i].task.dest !in op.backend.w.ns
    ensures x.Some? && op.r.entries[i].skip && !old(op.r.entries[i].skip) ==>
      op.r.entries[i] == old(op.r.entries[i]).(skip := true)
    ensures op.r.entries[i].skip && !old(op.r.entries[i].skip) ==>
      op.r.head.policy.ConflictSkip? && res == OK && op.r.entries[i].task.dest in op.backend.w.ns
    ensures op.backend.reliable && !op.r.head.policy.ConflictReplace? ==>
      var there := op.r.entries[i].task.dest in op.backend.w.ns;
      && res == (if there && op.r.head.policy.ConflictFail? then Conflicted else OK)
      && op.r.entries[i].skip == (old(op.r.entries[i].skip) || (there && op.r.head.policy.ConflictSkip?))
    ensures !op.r.head.policy.ConflictReplace? ==>
      op.r.entries[i] == old(op.r.entries[i]).(skip := op.r.entries[i].skip)
    ensures x.Some? && !op.r.head.policy.ConflictReplace? ==> op.backend.w.ns == old(op.backend.w.ns)
    ensures op.backend.quiet && !op.r.head.operation.Copy? ==>
      && op.backend.w.ns == old(op.backend.w.ns)
      && (res == OK && !op.r.entries[i].skip ==> op.r.entries[i].task.dest !in op.backend.w.ns)
    ensures (x.Some? && op.backend.reliable && op.r.head.policy.ConflictReplace? && op.r.head.operation.Copy? &&
             old(ProposalFits(op.backend.w.ns, op.r.entries[i], op.backend.proposal))) ==>
      res == OK && op.r.entries[i].replacement.BackupHeld?
    ensures x.Some? && op.backend.reliable && op.r.entries[i].task.dest !in old(op.backend.w.ns) ==> res == OK
    ensures BackedEntry(op.backend.proposal, old(op.r.entries[i])) ==>
      BackedEntry(op.backend.proposal, op.r.entries[i])
    ensures x.Some? && res == OK && op.r.head.policy.ConflictReplace? ==>
      if op.r.entries[i].task.dest in old(op.backend.w.ns)
      then MovedAway(old(op.backend.w.ns), op.r.entries[i], op.backend.w.ns)
      else op.backend.w.ns == old(op.backend.w.ns)
  {
    hide Recover, EntryOnTop, Sound, AllRoll, Restorable, AllGood, MovedAway;
    WithEntryTwice(op.r, i);
    var state := op.StateOf(op.r.entries[i].task.dest);
    if state == 0 {
      res := OK;
    } else if state != 1 {
      res := IoFailed;
    } else {
      match op.r.head.policy
      case ConflictFail => res := Conflicted;
      case ConflictSkip => MarkSkipped(op, i, x); res := OK;
      case ConflictReplace =>
        if !op.r.head.operation.Copy? {
          res := Unsupported;
        } else {
          res := Replace(op, i, x);
        }
    }
  }

  method MarkSkipped(op: Operation, i: nat, ghost x: Option<Namespace>)
    requires op.Well() && i < |op.r.entries|
    requires Follows(op.backend.quiet, op.claim, x, op.backend.w, op.r)
    requires x.Some? ==> EntryOnTop(op.r, i)
    modifies op`r
    ensures op.Well() && op.r == WithEntry(old(op.r), i, old(op.r.entries[i]).(skip := true))
    ensures Follows(op.backend.quiet, op.claim, x, op.backend.w, op.r)
    ensures x.Some? ==> EntryOnTop(op.r, i)
  {
    var e := op.r.entries[i].(skip := true);
    OwnsEntry(op.backend.w, op.r, i);
    EntryKeepsSound(op.backend.w, op.r, i, e);
    if x.Some? { EntryStep(op.backend.w.ns, op.r, op.backend.w.ns, i, e); }
    op.r := WithEntry(op.r, i, e);
  }

  /** The replacing policy: back up what is there, unless that is done, and look again. */
  method Replace(op: Operation, i: nat, ghost x: Option<Namespace>) returns (res: Result)
    requires op.Well() && i < |op.r.entries| && op.r.head.operation.Copy? && op.r.head.policy.ConflictReplace?
    requires Follows(op.backend.quiet, op.claim, x, op.backend.w, op.r)
    requires x.Some? ==> EntryOnTop(op.r, i) && Pristine(op.r.entries[i])
    modifies op`r, op.backend`w
    ensures op.Well()
    ensures i < |op.r.entries| && op.r == WithEntry(old(op.r), i, op.r.entries[i])
    ensures SameButConflict(old(op.r.entries[i]), op.r.entries[i]) && op.r.entries[i].skip == old(op.r.entries[i].skip)
    ensures Follows(op.backend.quiet, op.claim, x, op.backend.w, op.r)
    ensures x.Some? ==> EntryOnTop(op.r, i)
    ensures x.Some? && res == OK ==>
      op.r.entries[i].replacement.BackupHeld? && op.r.entries[i].task.dest !in op.backend.w.ns
    ensures BackedEntry(op.backend.proposal, old(op.r.entries[i])) ==>
      BackedEntry(op.backend.proposal, op.r.entries[i])
    ensures x.Some? && res == OK ==> MovedAway(old(op.backend.w.ns), op.r.entries[i], op.backend.w.ns)
    ensures op.backend.quiet && op.backend.reliable && x.Some? &&
            old(ProposalFits(op.backend.w.ns, op.r.entries[i], op.backend.proposal)) ==>
      res == OK
  {
    hide Recover, EntryOnTop, Sound, AllRoll, Restorable, AllGood, MovedAway, BackedEntry;
    WithEntryTwice(op.r, i);
    res := OK;
    if op.r.entries[i].replacement.NotReplacing? {
      res := BackUp(op, i, x);
    }
    if res == OK {
      if !op.r.entries[i].replacement.BackupHeld? {
        res := Conflicted;
      } else {
        var state := op.StateOf(op.r.entries[i].task.dest);
        res := if state == 0 then OK else if state == 1 then Conflicted else IoFailed;
      }
    }
  }

  // Opening the temporary object.

  /** Undoing entries that displaced and renamed nothing takes away destinations only. */
  lemma {:induction false} UndoTakesDestinations(ns: Namespace, entries: seq<Entry>, k: nat, x: Namespace)
    requires k <= |entries| && UndoPrefix(Some(ns), entries, k) == Some(x)
    requires forall j :: 0 <= j < |entries| ==> !entries[j].applied && entries[j].replacement.NotReplacing?
    ensures forall p :: p in ns ==> p in x || IsDestination(entries, p)
    decreases k
  {
    if k != 0 {
      var e := entries[k - 1];
      var below := UndoOpt(Some(ns), e);
      if below.None? {
        NoneStaysNone(entries, k - 1);
      } else {
        UndoTakesDestinations(below.value, entries, k - 1, x);
        assert below.value == ns || below.value == ns - {e.task.dest};
        assert IsDestination(entries, e.task.dest);
      }
    }
  }

  /** Where the plan leaves its temporary names free, they are free when one is needed. */
  lemma NameIsFree(w: World, r: Record, x: Namespace, path: Path)
    requires Sound(w, r) && r.head.operation.Copy? && !r.tempCreated && Recover(w.ns, r) == Some(x)
    requires TempName(r.entries, path) && NamesFree(x, r)
    ensures path !in w.ns
  {
    forall j | 0 <= j < |r.entries| ensures !r.entries[j].applied && r.entries[j].replacement.NotReplacing? {
      OwnsEntry(w, r, j);
    }
    UndoTakesDestinations(w.ns, r.entries, |r.entries|, x);
  }

  /** Announces the temporary object under a fresh token; a failure leaves none announced. */
  method AnnounceTemp(op: Operation, path: Path, ghost x: Option<Namespace>) returns (ok: bool, token: Token)
    requires op.Well() && op.r.head.operation.Copy? && !op.r.tempCreated && TempName(op.r.entries, path)
    requires Follows(op.backend.quiet, op.claim, x, op.backend.w, op.r) && (x.Some? ==> !op.claim.Strict?)
    modifies op`r, op.backend`w
    ensures op.Well() && op.r.head == old(op.r.head) && op.r.entries == old(op.r.entries)
    ensures Stands(op.backend.quiet, op.claim, x, op.backend.w, op.r)
    ensures op.backend.quiet ==> op.backend.w.ns == old(op.backend.w.ns)
    ensures !ok ==> !op.r.tempCreated && Follows(op.backend.quiet, op.claim, x, op.backend.w, op.r)
    ensures ok ==>
      && op.r == TempAnnounced(old(op.r), path, token) && token != 0 && token in op.backend.w.issued
      && op.backend.w.saved == op.r
      && (path !in op.backend.w.ns ==> Follows(op.backend.quiet, op.claim, x, op.backend.w, op.r))
    ensures op.backend.reliable ==> ok
    ensures op.backend.quiet && ok && path in op.backend.w.ns ==> op.backend.w.ns[path].id.token != token
  {
    hide Sound, Recover, Blocked, AllGood, TempName, NamesFree, Restorable, AllRoll;
    ok, token := op.FreshToken();
    if ok {
      ghost var r0 := op.r;
      TempAnnouncedStep(op.backend.w.ns, r0, path, token);
      if x.Some? && NamesFree(x.value, r0) { NameIsFree(op.backend.w, r0, x.value, path); }
      AnnouncedTempFits(op.backend.w, r0, path, token, x);
      op.r := TempAnnounced(op.r, path, token);
      ok := op.Checkpoint(x);
      if !ok {
        ClearedTempRecovers(op.backend.w.ns, r0, TempCleared(op.r));
        ClearedTempFits(op.backend.w, op.r);
        op.r := TempCleared(op.r);
      }
    }
  }

  lemma AnnouncedTempFits(w: World, r: Record, path: Path, token: Token, x: Option<Namespace>)
    requires Sound(w, r) && r.head.operation.Copy? && TempName(r.entries, path) && token != 0 && token in w.issued
    ensures Sound(w, TempAnnounced(r, path, token)) && Restorable(TempAnnounced(r, path, token))
    ensures AllRoll(r) ==> AllRoll(TempAnnounced(r, path, token))
    ensures x.Some? ==> NamesFree(x.value, TempAnnounced(r, path, token)) == NamesFree(x.value, r)
  {
  }

  lemma ClearedTempFits(w: World, r: Record)
    requires Sound(w, r)
    ensures Sound(w, TempCleared(r)) && (Restorable(r) ==> Restorable(TempCleared(r)))
    ensures AllRoll(r) ==> AllRoll(TempCleared(r))
  {
  }

  lemma ClearedTempRecovers(ns: Namespace, r: Record, r': Record)
    requires !r.tempCreated && r' == TempCleared(r').(head := r.head, entries := r.entries)
    ensures Recover(ns, r') == Recover(ns, r)
    ensures Restorable(r) ==> Restorable(r')
    ensures AllRoll(r) ==> AllRoll(r')
  {
    TempStep(ns, r, ns, r');
  }

  /** Creates the announced temporary object. */
  method MakeTemp(op: Operation, token: Token, ghost x: Option<Namespace>) returns (status: Status)
    requires op.Well() && op.r.head.operation.Copy? && op.r.tempCreated
    requires op.r.tempCleanup.CleanupNone? && op.r.tempId == TokenOnly(token)
    requires token != 0 && token in op.backend.w.issued && op.backend.w.saved == op.r
    requires Stands(op.backend.quiet, op.claim, x, op.backend.w, op.r)
    requires op.r.tempPath !in op.backend.w.ns ==> Follows(op.backend.quiet, op.claim, x, op.backend.w, op.r)
    modifies op.backend`w
    ensures op.Well() && op.backend.w.issued == old(op.backend.w.issued)
    ensures Stands(op.backend.quiet, op.claim, x, op.backend.w, op.r)
    ensures op.backend.quiet && status == PathExists ==> op.backend.w == old(op.backend.w)
    ensures op.backend.quiet && op.backend.reliable && CanCreate(old(op.backend.w.ns), op.r.tempPath) ==> status == Ok
    ensures x.Some? && status == Ok ==>
      && Follows(op.backend.quiet, op.claim, x, op.backend.w, op.r)
      && op.r.tempPath !in old(op.backend.w.ns) && op.r.tempPath in op.backend.w.ns
      && op.backend.w.ns == old(op.backend.w.ns)[op.r.tempPath := op.backend.w.ns[op.r.tempPath]]
      && Fresh(op.backend.w.ns, op.r.tempPath, token) && op.backend.w.saved == op.r
      && Recover(op.backend.w.ns, op.r.(tempId := op.backend.w.ns[op.r.tempPath].id)) == x
  {
    ghost var w0 := op.backend.w;
    ghost var done, node;
    hide SameTasks, Recover, Blocked, Restorable, AllRoll, NoChildren;
    status, done, node := op.backend.CreateMarked(op.r.tempPath, FileNode, token, []);
    if x.Some? && done {
      TempMadeStep(w0.ns, op.r, node);
      FreeHasNoChildren(w0.ns, op.r.tempPath);
      FreshStays(w0.ns, op.r.tempPath, node, token);
    }
  }

  /** An empty file without children that carries the token. */
  predicate Fresh(ns: Namespace, p: Path, token: Token) {
    p in ns && ns[p].kind.FileNode? && ns[p].content == [] && ns[p].id.Valid() && ns[p].id.token == token &&
      NoChildren(ns, p)
  }

  lemma FreshStays(ns: Namespace, p: Path, node: Node, token: Token)
    requires NoChildren(ns, p) && node.kind.FileNode? && node.content == []
    requires node.id.Valid() && node.id.token == token
    ensures Fresh(ns[p := node], p, token)
  {
  }

  /** Learns the full identity of the temporary object and records it. */
  method IdentifyTemp(op: Operation, token: Token, ghost x: Option<Namespace>) returns (res: Result)
    requires op.Well() && op.r.head.operation.Copy? && op.r.tempCreated
    requires op.r.tempCleanup.CleanupNone? && op.r.tempId == TokenOnly(token)
    requires token != 0 && token in op.backend.w.issued
    requires Follows(op.backend.quiet, op.claim, x, op.backend.w, op.r)
    requires x.Some? ==>
      && op.r.tempPath in op.backend.w.ns && Fresh(op.backend.w.ns, op.r.tempPath, token)
      && Recover(op.backend.w.ns, op.r.(tempId := op.backend.w.ns[op.r.tempPath].id)) == x
    modifies op`r, op.backend`w
    ensures op.Well() && op.r == old(op.r).(tempId := op.r.tempId)
    ensures res == InProgress ==> op.r.tempId.Valid() && op.backend.w.saved == op.r
    ensures Follows(op.backend.quiet, op.claim, x, op.backend.w, op.r)
    ensures x.Some? ==>
      op.backend.w.ns == old(op.backend.w.ns) && op.backend.w.ns[op.r.tempPath].content == [] &&
      (res == InProgress ==> TempStands(op.backend.w.ns, op.r)) && (op.backend.reliable ==> res == InProgress)
  {
    hide SameTasks, Recover, Blocked, NoChildren, AllGood;
    var status, id := op.backend.HandleIdentity(op.r.tempPath);
    if status != Ok || !id.Valid() || id.token != token {
      res := if status == Ok then IoFailed else ResultOf(status);
    } else {
      op.r := op.r.(tempId := id);
      var ok := op.Checkpoint(x);
      res := if ok then InProgress else IoFailed;
    }
  }

  /** Takes the announcement of a temporary object back when its path turned out to be taken. */
  method RetractTemp(op: Operation, ghost r0: Record, ghost x: Option<Namespace>) returns (ok: bool)
    requires op.Well() && op.r.head.operation.Copy? && !r0.tempCreated
    requires op.r == op.r.(head := r0.head, entries := r0.entries)
    requires x.Some? ==>
      && op.backend.quiet && Interrupted(r0) && Restorable(r0) && AllRoll(r0)
      && AllGood(op.claim, x.value, op.backend.w.history) && Recover(op.backend.w.ns, r0) == x
    modifies op`r, op`sourceHandle, op`tempHandle, op`fileOpen, op.backend`w
    ensures op.Well() && op.r == TempCleared(old(op.r)) && !op.r.tempCreated
    ensures Follows(op.backend.quiet, op.claim, x, op.backend.w, op.r)
    ensures op.backend.quiet ==> op.backend.w.ns == old(op.backend.w.ns)
  {
    hide Recover, AllGood, Sound, Restorable, AllRoll, NamesFree;
    ClearedTempRecovers(op.backend.w.ns, r0, TempCleared(op.r));
    ClearedTempFits(op.backend.w, op.r);
    op.r := TempCleared(op.r);
    ok := op.Checkpoint(x);
    if !ok { var closed := op.CloseFiles(); }
  }

  /** One attempt at a temporary path; a collision asks for another. */
  method TryTemp(op: Operation, path: Path, ghost x: Option<Namespace>) returns (res: Result, again: bool)
    requires op.Well() && op.r.head.operation.Copy? && !op.r.tempCreated && TempName(op.r.entries, path)
    requires Follows(op.backend.quiet, op.claim, x, op.backend.w, op.r) && (x.Some? ==> !op.claim.Strict?)
    modifies op`r, op`sourceHandle, op`tempHandle, op`fileOpen, op.backend`w
    ensures op.Well() && op.r.head == old(op.r.head) && op.r.entries == old(op.r.entries)
    ensures Stands(op.backend.quiet, op.claim, x, op.backend.w, op.r)
    ensures again ==> !op.r.tempCreated && Follows(op.backend.quiet, op.claim, x, op.backend.w, op.r)
    ensures again && op.backend.quiet ==> op.backend.w.ns == old(op.backend.w.ns)
    ensures again ==> res == Conflicted
    ensures res == InProgress ==> op.fileOpen && op.r.tempCreated && op.r.tempId.Valid() && op.r.tempPath == path
    ensures res == InProgress ==> op.backend.w.saved == op.r
    ensures x.Some? && res == InProgress ==>
      && Follows(op.backend.quiet, op.claim, x, op.backend.w, op.r) && TempStands(op.backend.w.ns, op.r)
      && path !in old(op.backend.w.ns) && path in op.backend.w.ns && op.backend.w.ns[path].content == []
      && op.backend.w.ns == old(op.backend.w.ns)[path := op.backend.w.ns[path]]
    ensures x.Some? && op.backend.reliable && CanCreate(old(op.backend.w.ns), path) ==> res == InProgress
  {
    again := false;
    ghost var r0 := op.r;
    hide Recover, Blocked, NoChildren, AllGood, TempStands, Fresh, TempName, NamesFree, Sound, Restorable, AllRoll,
      CanCreate, Collides;
    var ok, token := AnnounceTemp(op, path, x);
    if !ok {
      var closed := op.CloseFiles();
      res := IoFailed;
    } else {
      var status := MakeTemp(op, token, x);
      if status == PathExists {
        again := RetractTemp(op, r0, x);
        res := if again then Conflicted else IoFailed;
      } else if status != Ok {
        var closed := op.CloseFiles();
        res := ResultOf(status);
      } else {
        op.tempHandle, op.fileOpen := true, true;
        res := IdentifyTemp(op, token, x);
      }
    }
  }

  lemma NameOfEntry(entries: seq<Entry>, i: nat, n: nat)
    requires i < |entries|
    ensures TempName(entries, TempPathOf(entries[i].task.dest, n))
  {
  }

  /** The source is there with the planned size, and a temporary object can be made. */
  predicate CanOpen(ns: Namespace, task: Task, sequence: nat) {
    && task.source in ns && |ns[task.source].content| == task.size
    && CanCreate(ns, TempPathOf(task.dest, sequence))
  }

  /** Opens the source and a temporary object next to the destination, trying sixteen names. */
  method OpenCopy(op: Operation, i: nat, ghost x: Option<Namespace>) returns (res: Result)
    requires op.Well() && op.r.head.operation.Copy? && !op.r.tempCreated && i < |op.r.entries|
    requires Follows(op.backend.quiet, op.claim, x, op.backend.w, op.r) && (x.Some? ==> !op.claim.Strict?)
    modifies op`r, op`sourceHandle, op`tempHandle, op`fileOpen, op`tempSequence, op`stream, op.backend`w
    ensures op.Well() && op.r.head == old(op.r.head) && op.r.entries == old(op.r.entries)
    ensures Stands(op.backend.quiet, op.claim, x, op.backend.w, op.r)
    ensures res == InProgress ==> op.fileOpen && op.r.tempCreated && op.r.tempId.Valid() && op.backend.w.saved == op.r
    ensures res == InProgress ==>
      op.stream == Opened(op.stream.source, op.stream.sparse, old(op.stream.completed)) &&
      |op.stream.source| == op.r.entries[i].task.size
    ensures x.Some? && res == InProgress ==>
      && Follows(op.backend.quiet, op.claim, x, op.backend.w, op.r) && TempStands(op.backend.w.ns, op.r)
      && op.r.tempPath !in old(op.backend.w.ns) && !(op.r.tempPath <= op.r.entries[i].task.dest)
      && op.r.tempPath != []
      && (op.r.entries[i].task.dest != [] ==> Parent(op.r.tempPath) == Parent(op.r.entries[i].task.dest))
      && op.backend.w.ns == old(op.backend.w.ns)[op.r.tempPath := op.backend.w.ns[op.r.tempPath]]
      && op.backend.w.ns[op.r.tempPath].content == []
      && op.r.entries[i].task.source in old(op.backend.w.ns)
      && op.stream.source == old(op.backend.w.ns)[op.r.entries[i].task.source].content
    ensures (x.Some? && op.backend.reliable &&
             old(CanOpen(op.backend.w.ns, op.r.entries[i].task, op.tempSequence + 1))) ==> res == InProgress
  {
    hide Recover, Blocked, NoChildren, AllGood, TempStands, Sound, AllRoll, Restorable, TempName, TempPathOf, Digits,
      Collides, CanCreate, Interrupted;
    var status, content := op.Load(op.r.entries[i].task.source);
    if status != Ok { return ResultOf(status); }
    op.sourceHandle := true;
    status := op.Touch();
    if status != Ok || |content| != op.r.entries[i].task.size {
      var closed := op.CloseFiles();
      return if status == Ok then IoFailed else ResultOf(status);
    }
    var extents: bool := *;
    op.stream := Opened(content, extents, op.stream.completed);
    res := TryNames(op, i, x);
  }

  /** Tries sixteen names for the temporary object, one after the other. */
  method TryNames(op: Operation, i: nat, ghost x: Option<Namespace>) returns (res: Result)
    requires op.Well() && op.r.head.operation.Copy? && !op.r.tempCreated && i < |op.r.entries|
    requires Follows(op.backend.quiet, op.claim, x, op.backend.w, op.r) && (x.Some? ==> !op.claim.Strict?)
    modifies op`r, op`sourceHandle, op`tempHandle, op`fileOpen, op`tempSequence, op.backend`w
    ensures op.Well() && op.r.head == old(op.r.head) && op.r.entries == old(op.r.entries)
    ensures Stands(op.backend.quiet, op.claim, x, op.backend.w, op.r)
    ensures res == InProgress ==> op.fileOpen && op.r.tempCreated && op.r.tempId.Valid() && op.backend.w.saved == op.r
    ensures x.Some? && res == InProgress ==>
      && Follows(op.backend.quiet, op.claim, x, op.backend.w, op.r) && TempStands(op.backend.w.ns, op.r)
      && op.r.tempPath !in old(op.backend.w.ns) && op.r.tempPath in op.backend.w.ns
      && (exists n :: op.r.tempPath == TempPathOf(op.r.entries[i].task.dest, n))
      && op.backend.w.ns == old(op.backend.w.ns)[op.r.tempPath := op.backend.w.ns[op.r.tempPath]]
      && op.backend.w.ns[op.r.tempPath].content == []
    ensures (x.Some? && op.backend.reliable &&
             CanCreate(old(op.backend.w.ns), TempPathOf(op.r.entries[i].task.dest, old(op.tempSequence) + 1))) ==>
      res == InProgress
  {
    hide Recover, Blocked, NoChildren, AllGood, TempStands, Sound, AllRoll, Restorable, TempName, TempPathOf, Digits,
      Collides, CanCreate, Interrupted;
    var attempt := 0;
    while attempt < 16
      invariant op.Well() && op.r.head == old(op.r.head) && op.r.entries == old(op.r.entries)
      invariant !op.r.tempCreated && Follows(op.backend.quiet, op.claim, x, op.backend.w, op.r)
      invariant op.backend.quiet ==> op.backend.w.ns == old(op.backend.w.ns)
      invariant op.tempSequence == old(op.tempSequence) + attempt
      invariant (x.Some? && op.backend.reliable && attempt != 0) ==>
        !CanCreate(old(op.backend.w.ns), TempPathOf(op.r.entries[i].task.dest, old(op.tempSequence) + 1))
    {
      op.tempSequence := op.tempSequence + 1;
      var path := TempPathOf(op.r.entries[i].task.dest, op.tempSequence);
      NameOfEntry(op.r.entries, i, op.tempSequence);
      var fits: bool := *;
      if !fits && !op.backend.reliable {
        var closed := op.CloseFiles();
        return InvalidArgument;
      }
      var again;
      res, again := TryTemp(op, path, x);
      if !again { return; }
      attempt := attempt + 1;
    }
    var closed := op.CloseFiles();
    res := Conflicted;
  }

  // Publishing.

  /** The file under way: written to a temporary object, with nothing at the destination. */
  ghost predicate Copying(ns: Namespace, r: Record, i: nat) {
    && i < |r.entries| && TempStands(ns, r) && Underway(r.entries[i]) && r.entries[i].task.kind.File?
    && r.entries[i].task.dest !in ns && !(r.tempPath <= r.entries[i].task.dest) && SettledFrom(r.entries, i + 1)
    && r.tempPath != [] && (r.entries[i].task.dest != [] ==> Parent(r.tempPath) == Parent(r.entries[i].task.dest))
  }

  /** Publication is announced: the entry counts as created under the temporary object's identity. */
  method AnnouncePublish(op: Operation, i: nat, ghost x: Option<Namespace>) returns (ok: bool)
    requires op.Well() && op.r.head.operation.Copy? && i < |op.r.entries|
    requires op.r.tempCreated && op.r.tempId.Valid()
    requires Follows(op.backend.quiet, op.claim, x, op.backend.w, op.r)
    requires x.Some? ==> Copying(op.backend.w.ns, op.r, i)
    modifies op`r, op.backend`w
    ensures op.Well() && op.r == Publishing(old(op.r), i)
    ensures Follows(op.backend.quiet, op.claim, x, op.backend.w, op.r)
    ensures x.Some? ==> op.backend.w.ns == old(op.backend.w.ns)
    ensures ok ==> op.backend.w.saved == op.r
    ensures op.backend.reliable ==> ok
  {
    if x.Some? { PublishingStep(op.backend.w.ns, op.r, i); }
    OwnsEntry(op.backend.w, op.r, i);
    EntryKeepsSound(op.backend.w, op.r, i, Publishing(op.r, i).entries[i]);
    hide SameTasks, Recover, AllGood, Sound, AllRoll;
    op.r := Publishing(op.r, i);
    ok := op.Checkpoint(x);
  }

  /** The destination got the temporary object's node; the temporary name may be gone. */
  predicate PublishedTo(ns: Namespace, ns': Namespace, temp: Path, dest: Path) {
    && temp in ns && dest !in ns
    && (ns' == ns[dest := ns[temp]] || ns' == ns[dest := ns[temp]] - {temp})
  }

  lemma LawfulClosed(w: World)
    requires Lawful(w)
    ensures Closed(w.ns)
  {
  }

  /** A publication that the durable record announces does no harm. */
  lemma PublicationHarmless(w: World, r: Record, i: nat, d: Deed)
    requires Sound(w, r) && r.head.operation.Copy? && i < |r.entries| && d.act.Publish? && d.record == r && Effect(d)
    requires PublicationOf(r, r.entries[i], d.act.from, d.act.to)
    ensures Harmless(w.deeds + [d], w.made)
  {
    DeedKeepsHarmless(w.deeds, w.made, w.made, d);
  }

  method Publish(op: Operation, i: nat, ghost x: Option<Namespace>) returns (status: Status)
    requires op.Well() && op.r.head.operation.Copy? && i < |op.r.entries| && op.backend.w.saved == op.r
    requires op.r.tempCreated && op.r.entries[i].created && op.r.entries[i].objectId == op.r.tempId
    requires Follows(op.backend.quiet, op.claim, x, op.backend.w, op.r)
    requires x.Some? ==>
      && TempStands(op.backend.w.ns, op.r) && PublishAnnounced(op.r, i) && SettledFrom(op.r.entries, i + 1)
      && op.r.entries[i].task.dest !in op.backend.w.ns && !(op.r.tempPath <= op.r.entries[i].task.dest)
    modifies op.backend`w
    ensures op.Well()
    ensures Follows(op.backend.quiet, op.claim, x, op.backend.w, op.r)
    ensures op.backend.quiet && status == Ok ==>
      PublishedTo(old(op.backend.w.ns), op.backend.w.ns, op.r.tempPath, op.r.entries[i].task.dest)
    ensures (op.backend.quiet && op.backend.reliable && op.r.tempPath in old(op.backend.w.ns) &&
             CanCreate(old(op.backend.w.ns), op.r.entries[i].task.dest)) ==> status == Ok
    ensures op.backend.w.made == old(op.backend.w.made)
  {
    hide Recover, TempStands, AllRoll, Restorable, SettledFrom, NoChildren, Own, Lawful, SameJob, Effect, Fair,
      Harmless;
    ghost var w0 := op.backend.w;
    var e := op.r.entries[i];
    ghost var done, deed;
    LawfulClosed(w0);
    status, done, deed := op.backend.PublishAt(op.r.tempPath, e.task.dest);
    if done { PublicationHarmless(w0, op.r, i, deed); }
    if x.Some? && done { PublishedStep(w0.ns, op.r, i, op.backend.w.ns); }
  }

  /** Checks that the destination holds the published object and records that it does. */
  method ConfirmPublish(op: Operation, i: nat, ghost x: Option<Namespace>) returns (res: Result)
    requires op.Well() && op.r.head.operation.Copy? && i < |op.r.entries|
    requires op.r.entries[i].created && op.r.entries[i].objectId == op.r.tempId
    requires Follows(op.backend.quiet, op.claim, x, op.backend.w, op.r)
    requires x.Some? ==> SettledFrom(op.r.entries, i + 1)
    modifies op`r, op.backend`w
    ensures op.Well() && (op.r == old(op.r) || op.r == Published(old(op.r), i))
    ensures Follows(op.backend.quiet, op.claim, x, op.backend.w, op.r)
    ensures res == OK ==> op.r == Published(old(op.r), i)
    ensures op.backend.quiet ==> op.backend.w.ns == old(op.backend.w.ns)
    ensures (op.backend.quiet && op.backend.reliable && StandsAt(old(op.backend.w.ns), old(op.r.entries[i])) &&
             old(op.r.entries[i]).objectId.Valid()) ==> res == OK
  {
    hide Recover, AllGood, SettledFrom, Sound, Restorable, AllRoll;
    var e := op.r.entries[i];
    if x.Some? { PublishedRecordStep(op.backend.w.ns, op.r, i); }
    SavableOf(op.r, i);
    var status, id := op.IdentityOf(e.task.dest);
    if status != Ok || !e.objectId.Valid() {
      res := if status == Ok then IoFailed else ResultOf(status);
    } else if !SameObject(id, e.objectId) {
      res := Conflicted;
    } else {
      assert op.r.(tempId := id) == op.r;
      OwnsEntry(op.backend.w, op.r, i);
      EntryKeepsSound(op.backend.w, op.r, i, Published(op.r, i).entries[i]);
      op.r := Published(op.r.(tempId := id), i);
      status := op.Touch();
      if status != Ok {
        res := ResultOf(status);
      } else {
        var ok := op.Checkpoint(x);
        res := if ok then OK else IoFailed;
      }
    }
  }

  /** Removes what is left of the temporary object. */
  method DropTemp(op: Operation, ghost x: Option<Namespace>) returns (ok: bool)
    requires op.Well() && op.r.head.operation.Copy? && op.r.tempCreated
    requires Follows(op.backend.quiet, op.claim, x, op.backend.w, op.r)
    modifies op`r, op.backend`w
    ensures op.Well() && op.r.head == old(op.r.head) && op.r.entries == old(op.r.entries)
    ensures Follows(op.backend.quiet, op.claim, x, op.backend.w, op.r)
    ensures ok ==> !op.r.tempCreated
    ensures x.Some? && ok ==> op.backend.w.ns == old(op.backend.w.ns) - {old(op.r.tempPath)}
    ensures x.Some? && op.backend.reliable ==> ok
  {
    hide Sound, Recover, Restorable, AllGood, AllRoll;
    ok := op.CleanupCreatedPath(true, 0, x);
    if ok {
      if x.Some? { TempClearedStep(op.backend.w.ns, op.r); }
      ClearedTempFits(op.backend.w, op.r);
      op.r := TempCleared(op.r);
    }
  }

  /** Announces and publishes. */
  method PublishFile(op: Operation, i: nat, ghost x: Option<Namespace>) returns (res: Result)
    requires op.Well() && op.r.head.operation.Copy? && i < |op.r.entries|
    requires op.r.tempCreated && op.r.tempId.Valid()
    requires Follows(op.backend.quiet, op.claim, x, op.backend.w, op.r)
    requires x.Some? ==> Copying(op.backend.w.ns, op.r, i)
    modifies op`r, op.backend`w
    ensures op.Well() && op.r == Publishing(old(op.r), i)
    ensures Follows(op.backend.quiet, op.claim, x, op.backend.w, op.r)
    ensures x.Some? ==> SettledFrom(op.r.entries, i + 1)
    ensures x.Some? && res == OK ==>
      PublishedTo(old(op.backend.w.ns), op.backend.w.ns, op.r.tempPath, op.r.entries[i].task.dest)
    ensures x.Some? && op.backend.reliable && CanCreate(old(op.backend.w.ns), op.r.entries[i].task.dest) ==> res == OK
  {
    hide Recover, AllGood, SettledFrom, AllRoll, Restorable, Sound, CanCreate, NoChildren;
    ghost var r0 := op.r;
    var ok := AnnouncePublish(op, i, x);
    SettledAbove(r0, op.r, i);
    res := IoFailed;
    if ok {
      var status := Publish(op, i, x);
      if status != Ok {
        res := ResultOf(status);
      } else {
        ok := op.Checkpoint(x);
        if ok { res := OK; }
      }
    }
  }

  lemma SettledAbove(r: Record, r': Record, i: nat)
    requires |r.entries| == |r'.entries| && i < |r.entries| && r'.entries == r.entries[i := r'.entries[i]]
    ensures SettledFrom(r.entries, i + 1) ==> SettledFrom(r'.entries, i + 1)
  {
  }

  /** Flushes the temporary object, publishes it at the destination and clears it away. */
  method FinishCopy(op: Operation, i: nat, ghost x: Option<Namespace>) returns (res: Result)
    requires op.Well() && op.r.head.operation.Copy? && i < |op.r.entries|
    requires op.r.tempCreated && op.r.tempId.Valid()
    requires Follows(op.backend.quiet, op.claim, x, op.backend.w, op.r)
    requires x.Some? ==> Copying(op.backend.w.ns, op.r, i)
    modifies op`r, op`sourceHandle, op`tempHandle, op`fileOpen, op.backend`w
    ensures op.Well() && op.r.head == old(op.r.head) && |op.r.entries| == |old(op.r.entries)|
    ensures op.r.entries == old(op.r.entries)[i := op.r.entries[i]] && SameTask(old(op.r.entries[i]), op.r.entries[i])
    ensures op.r.entries[i].skip == old(op.r.entries[i].skip)
    ensures Follows(op.backend.quiet, op.claim, x, op.backend.w, op.r)
    ensures res == OK ==> !op.fileOpen && !op.r.tempCreated
    ensures x.Some? && res == OK ==>
      && op.r.entries == old(op.r.entries)[i := Made(old(op.r.entries[i]), old(op.r.tempId))]
      && op.backend.w.ns ==
           old(op.backend.w.ns)[op.r.entries[i].task.dest :=
             old(op.backend.w.ns)[old(op.r.tempPath)]] - {old(op.r.tempPath)}
    ensures x.Some? && op.backend.reliable && CanCreate(old(op.backend.w.ns), op.r.entries[i].task.dest) ==> res == OK
  {
    hide SameTasks, Recover, AllGood, SettledFrom, AllRoll, Restorable, Sound;
    var status := op.Touch();
    if status == Ok { status := op.Touch(); }
    if status != Ok {
      res := ResultOf(status);
    } else {
      var ok := op.CloseFiles();
      res := IoFailed;
      if ok { res := PublishFile(op, i, x); }
      if res == OK { res := ConfirmPublish(op, i, x); }
      if res == OK {
        ok := DropTemp(op, x);
        if !ok { res := IoFailed; }
      }
    }
  }

  // Objects created in place.

  /** Gives the entry a fresh token and records it before anything is created. */
  method PrepareEntryToken(op: Operation, i: nat, ghost x: Option<Namespace>) returns (ok: bool)
    requires op.Well() && op.r.head.operation.Copy? && i < |op.r.entries| && !op.r.entries[i].created
    requires Follows(op.backend.quiet, op.claim, x, op.backend.w, op.r)
    requires x.Some? ==>
      EntryOnTop(op.r, i) && Pristine(op.r.entries[i]) && op.r.entries[i].task.dest !in op.backend.w.ns
    modifies op`r, op.backend`w
    ensures op.Well() && i < |op.r.entries|
    ensures op.r == WithEntry(old(op.r), i, old(op.r.entries[i]).(objectId := op.r.entries[i].objectId))
    ensures Follows(op.backend.quiet, op.claim, x, op.backend.w, op.r)
    ensures x.Some? ==> EntryOnTop(op.r, i) && (ok ==> op.backend.w.saved == op.r)
    ensures old(op.r.entries[i].objectId) == NO_IDENTITY ==>
      (ok ==> op.backend.w.saved == op.r) && (op.backend.reliable ==> ok)
    ensures ok ==> op.r.entries[i].objectId.HasToken()
    ensures old(op.r.entries[i].objectId) == NO_IDENTITY && ok ==> !op.r.entries[i].objectId.Valid()
    ensures op.backend.quiet ==> op.backend.w.ns == old(op.backend.w.ns)
  {
    hide Recover, AllGood, EntryOnTop, UndoEntry, Sound;
    var e := op.r.entries[i];
    WithEntryTwice(op.r, i);
    OwnsEntry(op.backend.w, op.r, i);
    ok := e.objectId.HasToken();
    if e.objectId == NO_IDENTITY {
      var token;
      ok, token := op.FreshToken();
      if ok {
        if x.Some? { AnnouncedStep(op.backend.w.ns, e, TokenOnly(token)); }
        ok := op.AdvanceEntry(i, e.(objectId := TokenOnly(token)), x);
        if !ok {
          if x.Some? { EntryStep(op.backend.w.ns, op.r, op.backend.w.ns, i, e); }
          EntryKeepsSound(op.backend.w, op.r, i, e);
          op.r := WithEntry(op.r, i, e);
        }
      }
    }
  }

  /** An entry whose object is announced by token and not recorded as created. */
  predicate Awaiting(e: Entry) {
    && !e.created && !e.applied && e.objectId.HasToken() && e.cleanup.CleanupNone? && e.replacement.NotReplacing?
  }

  /** Creates the announced object at the destination. */
  method MakeAt(op: Operation, i: nat, kind: NodeKind, content: seq<bv8>, ghost x: Option<Namespace>)
    returns (status: Status)
    requires op.Well() && op.r.head.operation.Copy? && i < |op.r.entries|
    requires op.r.entries[i].objectId.HasToken() && SameKind(op.r.entries[i].task.kind, kind)
    requires Follows(op.backend.quiet, op.claim, x, op.backend.w, op.r)
    requires x.Some? ==>
      && EntryOnTop(op.r, i) && Awaiting(op.r.entries[i]) && !op.r.entries[i].objectId.Valid()
      && op.backend.w.saved == op.r
    modifies op.backend`w
    ensures op.Well() && op.backend.w.issued == old(op.backend.w.issued)
    ensures Follows(op.backend.quiet, op.claim, x, op.backend.w, op.r)
    ensures op.backend.quiet && status == PathExists ==>
      op.r.entries[i].task.dest in op.backend.w.ns && op.backend.w.ns == old(op.backend.w.ns)
    ensures op.backend.quiet && status == Ok ==>
      && CanCreate(old(op.backend.w.ns), op.r.entries[i].task.dest) && op.r.entries[i].task.dest in op.backend.w.ns
      && op.backend.w.ns ==
           old(op.backend.w.ns)[op.r.entries[i].task.dest := op.backend.w.ns[op.r.entries[i].task.dest]]
      && op.backend.w.ns[op.r.entries[i].task.dest].kind == kind &&
           op.backend.w.ns[op.r.entries[i].task.dest].content == content
      && op.backend.w.ns[op.r.entries[i].task.dest].id.Valid()
      && op.backend.w.ns[op.r.entries[i].task.dest].id.token == op.r.entries[i].objectId.token
    ensures (op.backend.quiet && op.backend.reliable &&
             CanCreate(old(op.backend.w.ns), op.r.entries[i].task.dest)) ==> status == Ok
  {
    ghost var w0 := op.backend.w;
    var e := op.r.entries[i];
    OwnsEntry(op.backend.w, op.r, i);
    WithEntryTwice(op.r, i);
    ghost var done, node;
    hide SameTasks, Recover, AllRoll, Restorable, EntryOnTop, UndoEntry;
    status, done, node := op.backend.CreateMarked(e.task.dest, kind, e.objectId.token, content);
    if x.Some? && done {
      AppearedStep(w0.ns, e, node);
      EntryStep(w0.ns, op.r, op.backend.w.ns, i, e);
    }
  }

  /** The object the entry announced stands at its destination. */
  predicate Adoptable(ns: Namespace, e: Entry) {
    && e.task.dest in ns && ns[e.task.dest].id.Valid() && ns[e.task.dest].id.token == e.objectId.token
    && (e.objectId.Valid() ==> ns[e.task.dest].id == e.objectId)
  }

  /** Looks the new object up and records it as created. */
  method Adopt(op: Operation, i: nat, ghost x: Option<Namespace>) returns (res: Result)
    requires op.Well() && op.r.head.operation.Copy? && i < |op.r.entries|
    requires op.r.entries[i].objectId.HasToken() && !op.r.entries[i].created
    requires Follows(op.backend.quiet, op.claim, x, op.backend.w, op.r)
    requires x.Some? ==> EntryOnTop(op.r, i) && Awaiting(op.r.entries[i])
    modifies op`r, op.backend`w
    ensures op.Well() && i < |op.r.entries|
    ensures op.r == old(op.r) || op.r == WithEntry(old(op.r), i, Made(old(op.r.entries[i]), op.r.entries[i].objectId))
    ensures Follows(op.backend.quiet, op.claim, x, op.backend.w, op.r)
    ensures x.Some? ==> EntryOnTop(op.r, i)
    ensures op.backend.quiet ==> op.backend.w.ns == old(op.backend.w.ns)
    ensures res == OK ==> op.r == WithEntry(old(op.r), i, Made(old(op.r.entries[i]), op.r.entries[i].objectId))
    ensures op.backend.quiet && res == OK ==>
      op.r.entries[i].task.dest in op.backend.w.ns &&
        op.r.entries[i].objectId == op.backend.w.ns[op.r.entries[i].task.dest].id
    ensures op.backend.quiet && op.backend.reliable && Adoptable(old(op.backend.w.ns), old(op.r.entries[i])) ==>
      res == OK
  {
    var e := op.r.entries[i];
    OwnsEntry(op.backend.w, op.r, i);
    hide SameTasks, Recover, AllGood, EntryOnTop;
    var status, id := op.IdentityOf(e.task.dest);
    if status != Ok {
      res := ResultOf(status);
    } else if e.objectId.Valid() && id != e.objectId {
      res := Conflicted;
    } else if !id.Valid() || id.token != e.objectId.token {
      res := IoFailed;
    } else {
      if x.Some? { BornStep(op.backend.w.ns, e); }
      var ok := op.AdvanceEntry(i, Made(e, id), x);
      res := if ok then OK else IoFailed;
    }
  }

  /** Takes the announcement back when the path turned out to be taken. */
  method Retract(op: Operation, i: nat, ghost x: Option<Namespace>)
    requires op.Well() && op.r.head.operation.Copy? && i < |op.r.entries| && !op.r.entries[i].created
    requires Follows(op.backend.quiet, op.claim, x, op.backend.w, op.r)
    requires x.Some? ==>
      EntryOnTop(op.r, i) && Awaiting(op.r.entries[i]) && op.r.entries[i].task.dest !in op.backend.w.ns
    modifies op`r, op.backend`w
    ensures op.Well() && op.r == WithEntry(old(op.r), i, old(op.r.entries[i]).(objectId := NO_IDENTITY))
    ensures Follows(op.backend.quiet, op.claim, x, op.backend.w, op.r)
  {
    OwnsEntry(op.backend.w, op.r, i);
    if x.Some? { UnbornStep(op.backend.w.ns, op.r.entries[i]); }
    var ok := op.AdvanceEntry(i, op.r.entries[i].(objectId := NO_IDENTITY), x);
  }

  /** The record of an object created in place, seen from before its announcement. */
  lemma MadeRecord(ns: Namespace, r: Record, i: nat, node: Node)
    requires Closed(ns) && EntryOnTop(r, i) && Underway(r.entries[i]) && r.head.operation.Copy?
    requires CanCreate(ns, r.entries[i].task.dest) && SameKind(r.entries[i].task.kind, node.kind)
    requires node.id.Valid() && node.id.HasToken() && Restorable(r) && AllRoll(r)
    ensures
      var r' := WithEntry(r, i, Made(r.entries[i], node.id));
      && Recover(ns[r.entries[i].task.dest := node], r') == Recover(ns, r)
      && Restorable(r') && AllRoll(r') && EntryOnTop(r', i)
  {
    MadeStep(ns, r.entries[i], node);
    hide SameTasks, UndoEntry, Closed;
    EntryStep(ns, r, ns[r.entries[i].task.dest := node], i, Made(r.entries[i], node.id));
  }

  /** Ready to create the object of entry `i` in place. A displaced predecessor is compatible with
      exact rollback only for files. */
  ghost predicate ReadyToMake(claim: Claim, ns: Namespace, r: Record, i: nat) {
    && EntryOnTop(r, i) && Underway(r.entries[i]) && r.entries[i].objectId == NO_IDENTITY
    && r.entries[i].task.dest !in ns && (!claim.Loose? ==> r.entries[i].replacement.NotReplacing?)
  }

  /** Creates a directory or a symbolic link: announce a token, create, look up, record. */
  method MakeMarked(op: Operation, i: nat, kind: NodeKind, content: seq<bv8>, ghost x: Option<Namespace>)
    returns (res: Result)
    requires op.Well() && op.r.head.operation.Copy? && i < |op.r.entries|
    requires !op.r.entries[i].created && SameKind(op.r.entries[i].task.kind, kind)
    requires Follows(op.backend.quiet, op.claim, x, op.backend.w, op.r)
    requires x.Some? ==> ReadyToMake(op.claim, op.backend.w.ns, op.r, i) && op.r.entries[i].replacement.NotReplacing?
    modifies op`r, op.backend`w
    ensures op.Well() && i < |op.r.entries| && op.r.head == old(op.r.head)
    ensures |op.r.entries| == |old(op.r.entries)| && op.r.tempCreated == old(op.r.tempCreated)
    ensures op.r.entries == old(op.r.entries)[i := op.r.entries[i]] && SameTask(old(op.r.entries[i]), op.r.entries[i])
    ensures op.r.entries[i].skip == old(op.r.entries[i].skip)
    ensures Follows(op.backend.quiet, op.claim, x, op.backend.w, op.r)
    ensures op.backend.quiet && res == OK ==>
      && op.r == WithEntry(old(op.r), i, Made(old(op.r.entries[i]), op.r.entries[i].objectId))
      && CanCreate(old(op.backend.w.ns), op.r.entries[i].task.dest) && op.r.entries[i].task.dest in op.backend.w.ns
      && op.backend.w.ns ==
           old(op.backend.w.ns)[op.r.entries[i].task.dest := op.backend.w.ns[op.r.entries[i].task.dest]]
      && op.backend.w.ns[op.r.entries[i].task.dest].kind == kind &&
           op.backend.w.ns[op.r.entries[i].task.dest].content == content
      && op.backend.w.ns[op.r.entries[i].task.dest].id == op.r.entries[i].objectId
    ensures (op.backend.quiet && op.backend.reliable && old(op.r.entries[i].objectId) == NO_IDENTITY &&
             CanCreate(old(op.backend.w.ns), op.r.entries[i].task.dest)) ==> res == OK
  {
    hide Recover, AllGood, EntryOnTop, Sound, AllRoll, Restorable, CanCreate, UndoEntry;
    WithEntryTwice(op.r, i);
    var ok := PrepareEntryToken(op, i, x);
    if !ok {
      res := IoFailed;
    } else {
      var status := MakeAt(op, i, kind, content, x);
      if status == PathExists {
        Retract(op, i, x);
        res := Conflicted;
      } else if status != Ok {
        res := ResultOf(status);
      } else {
        res := Adopt(op, i, x);
      }
    }
  }

  /** The file a hard link is to share still is the one an earlier entry created. */
  ghost predicate LinkIntact(ns: Namespace, r: Record, i: nat)
    requires i < |r.entries|
  {
    var k := r.entries[i].task.linkSource;
    k < i && r.entries[k].created && r.entries[k].task.dest in ns ==>
      ns[r.entries[k].task.dest].id == r.entries[k].objectId
  }

  /** The file to be shared is there, as an earlier entry made it. */
  predicate CanLink(ns: Namespace, r: Record, i: nat)
    requires i < |r.entries|
  {
    var k := r.entries[i].task.linkSource;
    && k < i && r.entries[k].objectId.Valid() && r.entries[k].objectId.HasToken() && r.entries[k].task.dest in ns
    && ns[r.entries[k].task.dest].id == r.entries[k].objectId && !ns[r.entries[k].task.dest].kind.DirectoryNode?
  }

  /** The node is the one that an earlier entry has at its destination. */
  predicate LinksTo(ns: Namespace, r: Record, i: nat, node: Node)
    requires i < |r.entries|
  {
    var k := r.entries[i].task.linkSource;
    k < i && r.entries[k].objectId.HasToken() && r.entries[k].task.dest in ns && node == ns[r.entries[k].task.dest]
  }

  /** Gives the announced object its second name. */
  method LinkAt(op: Operation, i: nat, from: Path, ghost x: Option<Namespace>) returns (status: Status)
    requires op.Well() && op.r.head.operation.Copy? && i < |op.r.entries|
    requires op.r.entries[i].objectId.HasToken() && op.r.entries[i].task.kind.Hardlink?
    requires Follows(op.backend.quiet, op.claim, x, op.backend.w, op.r)
    requires x.Some? ==>
      && EntryOnTop(op.r, i) && Awaiting(op.r.entries[i]) && op.r.entries[i].objectId.Valid()
      && (from in op.backend.w.ns ==> op.backend.w.ns[from].id == op.r.entries[i].objectId)
      && op.backend.w.saved == op.r
    modifies op.backend`w
    ensures op.Well() && op.backend.w.issued == old(op.backend.w.issued)
    ensures Follows(op.backend.quiet, op.claim, x, op.backend.w, op.r)
    ensures op.backend.quiet && status == PathExists ==>
      op.r.entries[i].task.dest in op.backend.w.ns && op.backend.w.ns == old(op.backend.w.ns)
    ensures op.backend.quiet && status == Ok ==>
      && CanCreate(old(op.backend.w.ns), op.r.entries[i].task.dest) && from in old(op.backend.w.ns)
      && op.backend.w.ns == old(op.backend.w.ns)[op.r.entries[i].task.dest := old(op.backend.w.ns)[from]]
      && !op.backend.w.ns[op.r.entries[i].task.dest].kind.DirectoryNode?
    ensures (op.backend.quiet && op.backend.reliable && from in old(op.backend.w.ns) &&
             !old(op.backend.w.ns)[from].kind.DirectoryNode? &&
             CanCreate(old(op.backend.w.ns), op.r.entries[i].task.dest)) ==> status == Ok
  {
    ghost var w0 := op.backend.w;
    var e := op.r.entries[i];
    WithEntryTwice(op.r, i);
    ghost var done;
    hide SameTasks, Recover, AllRoll, Restorable, EntryOnTop, UndoEntry;
    status, done := op.backend.LinkAs(from, e.task.dest);
    if x.Some? && done {
      AppearedStep(w0.ns, e, w0.ns[from]);
      EntryStep(w0.ns, op.r, op.backend.w.ns, i, e);
    }
  }

  /** Creates a hard link to what an earlier entry created. */
  method MakeLink(op: Operation, i: nat, ghost x: Option<Namespace>) returns (res: Result)
    requires op.Well() && op.r.head.operation.Copy? && i < |op.r.entries|
    requires !op.r.entries[i].created && op.r.entries[i].task.kind.Hardlink?
    requires Follows(op.backend.quiet, op.claim, x, op.backend.w, op.r)
    requires x.Some? ==>
      && ReadyToMake(op.claim, op.backend.w.ns, op.r, i) && op.r.entries[i].replacement.NotReplacing?
      && LinkIntact(op.backend.w.ns, op.r, i)
      && (forall k :: 0 <= k < i ==> op.r.entries[k].objectId.HasToken() ==> op.r.entries[k].created)
    modifies op`r, op.backend`w
    ensures op.Well() && i < |op.r.entries| && op.r.head == old(op.r.head)
    ensures |op.r.entries| == |old(op.r.entries)| && op.r.tempCreated == old(op.r.tempCreated)
    ensures op.r.entries == old(op.r.entries)[i := op.r.entries[i]] && SameTask(old(op.r.entries[i]), op.r.entries[i])
    ensures op.r.entries[i].skip == old(op.r.entries[i].skip)
    ensures Follows(op.backend.quiet, op.claim, x, op.backend.w, op.r)
    ensures op.backend.quiet && res == OK ==>
      && op.r == WithEntry(old(op.r), i, Made(old(op.r.entries[i]), op.r.entries[i].objectId))
      && CanCreate(old(op.backend.w.ns), op.r.entries[i].task.dest) && op.r.entries[i].task.dest in op.backend.w.ns
      && op.backend.w.ns ==
           old(op.backend.w.ns)[op.r.entries[i].task.dest := op.backend.w.ns[op.r.entries[i].task.dest]]
      && !op.backend.w.ns[op.r.entries[i].task.dest].kind.DirectoryNode?
      && op.backend.w.ns[op.r.entries[i].task.dest].id == op.r.entries[i].objectId
      && LinksTo(old(op.backend.w.ns), old(op.r), i, op.backend.w.ns[op.r.entries[i].task.dest])
    ensures (op.backend.quiet && op.backend.reliable && old(CanLink(op.backend.w.ns, op.r, i)) &&
             CanCreate(old(op.backend.w.ns), op.r.entries[i].task.dest)) ==> res == OK
  {
    hide Recover, AllGood, EntryOnTop, Sound, Restorable, CanCreate, UndoEntry;
    var e := op.r.entries[i];
    WithEntryTwice(op.r, i);
    if e.task.linkSource >= i { return Unsupported; }
    var from := op.r.entries[e.task.linkSource];
    if !from.objectId.Valid() || !from.objectId.HasToken() { return Unsupported; }
    OwnsEntry(op.backend.w, op.r, i);
    OwnsEntry(op.backend.w, op.r, e.task.linkSource);
    if x.Some? { AnnouncedStep(op.backend.w.ns, e, from.objectId); }
    var ok := op.AdvanceEntry(i, e.(objectId := from.objectId), x);
    if !ok {
      res := IoFailed;
    } else {
      var status := LinkAt(op, i, from.task.dest, x);
      if status == PathExists {
        Retract(op, i, x);
        res := Conflicted;
      } else if status != Ok {
        res := ResultOf(status);
      } else {
        res := Adopt(op, i, x);
      }
    }
  }

  // The data of the file under way.

  /** What a write left in the file reaches the temporary object. */
  method StoreBytes(op: Operation, content: seq<bv8>, ghost x: Option<Namespace>)
    requires op.Well() && op.r.tempCreated
    requires Follows(op.backend.quiet, op.claim, x, op.backend.w, op.r)
    requires x.Some? ==> TempStands(op.backend.w.ns, op.r) && op.backend.w.saved == op.r
    modifies op.backend`w
    ensures op.Well() && op.backend.w.saved == old(op.backend.w.saved)
    ensures Follows(op.backend.quiet, op.claim, x, op.backend.w, op.r)
    ensures x.Some? ==>
      && TempStands(op.backend.w.ns, op.r)
      && op.backend.w.ns ==
           old(op.backend.w.ns)[op.r.tempPath := old(op.backend.w.ns)[op.r.tempPath].(content := content)]
  {
    if x.Some? { TempWrittenStep(op.backend.w.ns, op.r, content); }
    assert x.Some? ==> op.r.tempPath in op.backend.w.ns && op.backend.w.ns[op.r.tempPath].id == op.r.tempId;
    hide SameTasks, Recover, AllRoll, Restorable, TempStands;
    op.backend.SetContent(op.r.tempPath, op.r.tempId, content);
  }

  /** What the data path wrote reaches the temporary object, write by write. */
  method StoreWrites(op: Operation, writes: seq<seq<bv8>>, ghost x: Option<Namespace>)
    requires op.Well() && op.r.tempCreated
    requires Follows(op.backend.quiet, op.claim, x, op.backend.w, op.r)
    requires x.Some? ==> TempStands(op.backend.w.ns, op.r) && op.backend.w.saved == op.r
    modifies op.backend`w
    ensures op.Well() && op.backend.w.saved == old(op.backend.w.saved)
    ensures Follows(op.backend.quiet, op.claim, x, op.backend.w, op.r)
    ensures x.Some? ==>
      && TempStands(op.backend.w.ns, op.r) && op.r.tempPath in old(op.backend.w.ns)
      && op.backend.w.ns == old(op.backend.w.ns)[op.r.tempPath := old(op.backend.w.ns)[op.r.tempPath].(content :=
           After(old(op.backend.w.ns)[op.r.tempPath].content, writes))]
  {
    ghost var ns0 := op.backend.w.ns;
    assert x.Some? ==>
      op.r.tempPath in ns0 && ns0 == ns0[op.r.tempPath := ns0[op.r.tempPath].(content := ns0[op.r.tempPath].content)];
    hide Sound, Recover, AllRoll, Restorable, AllGood, NoChildren;
    for k := 0 to |writes|
      invariant op.Well() && op.backend.w.saved == old(op.backend.w.saved)
      invariant Follows(op.backend.quiet, op.claim, x, op.backend.w, op.r)
      invariant x.Some? ==> TempStands(op.backend.w.ns, op.r) && op.r.tempPath in ns0
      invariant x.Some? ==>
        op.backend.w.ns == ns0[op.r.tempPath :=
          ns0[op.r.tempPath].(content := After(ns0[op.r.tempPath].content, writes[..k]))]
    {
      StoreBytes(op, writes[k], x);
      assert writes[..k + 1][k] == writes[k];
    }
    assert writes[..|writes|] == writes;
  }
}
