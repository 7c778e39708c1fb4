/** What recovery means, as a function: the durable record of an interrupted operation and the
    namespace it left behind determine the namespace that rolling back ends in. The temporary
    object goes first, then the entries from the last to the first. */
module UndoSpec {
  import opened Common
  import opened Namespaces

  datatype EntryKind = File | Directory | Symlink | Hardlink

  datatype Cleanup =
    | CleanupNone | RemovePending | RemoveInProgress | SyncPending
    | RenameInProgress | RenameSyncPending

  datatype Replacement =
    | NotReplacing | BackupInProgress | BackupHeld | PublishInProgress | RestoreInProgress
    | UndoRemoveInProgress | UndoRestoreInProgress

  /** What the plan says of an entry. */
  datatype Task = Task(source: Path, dest: Path, kind: EntryKind, size: nat, linkSource: nat)

  datatype Entry = Entry(
    task: Task, skip: bool, created: bool, applied: bool, cleanup: Cleanup, objectId: Identity,
    replacement: Replacement, backup: Path, backupId: Identity)

  datatype OperationKind = Copy | Move | Trash | Restore

  datatype Policy = ConflictFail | ConflictSkip | ConflictReplace

  datatype Result =
    | OK | InProgress | Completed | Cancelled | Conflicted | Unsupported
    | InvalidArgument | NoSpace | DeviceRemoved | IoFailed | RollbackFailed | Busy

  /** What kind of operation it is and how far it has come. */
  datatype Header = Header(
    operation: OperationKind, policy: Policy, pending: Result,
    active: bool, recoveryRequired: bool, rollbackActive: bool, undoActive: bool,
    entryIndex: nat, rollbackIndex: nat)

  /** The durable part of an operation. */
  datatype Record = Record(
    head: Header, tempCreated: bool, tempPath: Path, tempId: Identity, tempCleanup: Cleanup,
    entries: seq<Entry>)

  /** One moment of a run: what is on disk and which record is durable; the tokens the operation was
      given and the objects it made so far; and how many changes it has made. */
  datatype Instant = Instant(ns: Namespace, saved: Record, issued: set<Token>, made: set<Identity>, age: nat)

  /** No step changes the plan of an entry. */
  predicate SameTask(a: Entry, b: Entry) { a.task == b.task }

  predicate SameTasks(a: seq<Entry>, b: seq<Entry>) {
    |a| == |b| && forall j :: 0 <= j < |a| ==> SameTask(a[j], b[j])
  }

  /** Two records of one operation. */
  predicate SameJob(a: Record, b: Record) {
    && a.head.operation == b.head.operation && a.head.policy == b.head.policy
    && SameTasks(a.entries, b.entries)
  }

  function Digits(n: nat): string {
    var last := [(n % 10) as char + '0'];
    if n < 10 then last else Digits(n / 10) + last
  }

  /** The name of a temporary object, next to the destination it is for. */
  function TempPathOf(dest: Path, sequence: nat): (p: Path)
    ensures p != [] && !(p <= dest)
    ensures dest != [] ==> Parent(p) == Parent(dest) && dest[|dest| - 1] < p[|p| - 1]
  {
    var suffix := ".rinop-" + Digits(sequence) + ".tmp";
    if dest == [] then [suffix] else
    var name := dest[|dest| - 1];
    assert |name + suffix| != |name|;
    Parent(dest) + [name + suffix]
  }

  /** The path is one the plan may use for a temporary object. */
  ghost predicate TempName(entries: seq<Entry>, p: Path) {
    exists j, n: nat :: 0 <= j < |entries| && p == TempPathOf(entries[j].task.dest, n)
  }

  predicate IsDestination(entries: seq<Entry>, p: Path) {
    exists j :: 0 <= j < |entries| && entries[j].task.dest == p
  }

  /** A copy that replaces nothing finds none of its temporary names taken, neither by an object of
      `x` nor by a destination of its own. */
  ghost predicate NamesFree(x: Namespace, r: Record) {
    && !r.head.policy.ConflictReplace?
    && forall p :: TempName(r.entries, p) ==> p !in x && !IsDestination(r.entries, p)
  }

  lemma SameNames(x: Namespace, a: Record, b: Record)
    requires SameJob(a, b)
    ensures NamesFree(x, a) == NamesFree(x, b)
  {
    forall p ensures TempName(a.entries, p) == TempName(b.entries, p) {
      NameOfPlan(a.entries, b.entries, p);
      NameOfPlan(b.entries, a.entries, p);
    }
    forall p ensures IsDestination(a.entries, p) == IsDestination(b.entries, p) {
      if IsDestination(a.entries, p) {
        var j :| 0 <= j < |a.entries| && a.entries[j].task.dest == p;
        assert SameTask(a.entries[j], b.entries[j]);
      }
      if IsDestination(b.entries, p) {
        var j :| 0 <= j < |b.entries| && b.entries[j].task.dest == p;
        assert SameTask(a.entries[j], b.entries[j]);
      }
    }
  }

  lemma NameOfPlan(a: seq<Entry>, b: seq<Entry>, p: Path)
    requires |a| == |b| && forall j :: 0 <= j < |a| ==> a[j].task == b[j].task
    ensures TempName(a, p) ==> TempName(b, p)
  {
    if TempName(a, p) {
      var j, n: nat :| 0 <= j < |a| && p == TempPathOf(a[j].task.dest, n);
      assert p == TempPathOf(b[j].task.dest, n);
    }
  }

  // Which records can be saved and restored.

  predicate SavableEntry(e: Entry) {
    && (if e.replacement.NotReplacing? then e.backup == [] && e.backupId == NO_IDENTITY
        else e.backup != [] && e.backupId.Valid())
    && (e.created || e.applied ==> e.objectId.Valid())
    && (e.objectId == NO_IDENTITY || e.objectId.IntentValid())
  }

  predicate SavableTemp(created: bool, path: Path, id: Identity, cleanup: Cleanup) {
    && (if created then path != [] && id.IntentValid() else cleanup.CleanupNone?)
    && !cleanup.RenameInProgress? && !cleanup.RenameSyncPending?
  }

  /** The record passes every check that restoring it makes. */
  predicate Restorable(r: Record) {
    && SavableTemp(r.tempCreated, r.tempPath, r.tempId, r.tempCleanup)
    && (forall j :: 0 <= j < |r.entries| ==> SavableEntry(r.entries[j]))
  }

  // Recovery, one layer at a time.

  /** Removing a path the operation announced or created; absence counts as done. An object found
      at a path whose removal is already recorded is nobody's to judge: no answer. */
  function Cleaned(ns: Namespace, p: Path, directory: bool, id: Identity, cleanup: Cleanup): Option<Namespace> {
    if !id.IntentValid() then None
    else if cleanup.RenameInProgress? || cleanup.RenameSyncPending? then None
    else if p !in ns then Some(ns)
    else if cleanup.SyncPending? then None
    else if id.Valid() && ns[p].id == id then RemoveNode(ns, p, directory)
    else if !id.Valid() && ns[p].id.Valid() && ns[p].id.token == id.token then RemoveNode(ns, p, directory)
    else None
  }

  /** Putting a replaced object back at its destination. */
  function Reinstated(ns: Namespace, e: Entry): Option<Namespace> {
    if e.replacement.NotReplacing? then Some(ns)
    else if e.replacement.UndoRemoveInProgress? || e.replacement.UndoRestoreInProgress? then None
    else if e.backup !in ns && e.task.dest in ns then
      if SameObject(ns[e.task.dest].id, e.backupId) then Some(ns) else None
    else if e.backup in ns && e.task.dest !in ns then
      if SameObject(ns[e.backup].id, e.backupId) && CanMove(ns, e.backup, e.task.dest)
      then Some(Moved(ns, e.backup, e.task.dest)) else None
    else None
  }

  /** Taking a renamed object back to its source. A pending directory sync is taken to mean
      that the rename back already happened. */
  function MovedHome(ns: Namespace, e: Entry): Option<Namespace> {
    if !e.objectId.Valid() then None
    else if e.cleanup.RenameSyncPending? then Some(ns)
    else if !e.cleanup.CleanupNone? && !e.cleanup.RenameInProgress? then None
    else if e.task.source !in ns && e.task.dest in ns then
      if SameObject(ns[e.task.dest].id, e.objectId) && CanMove(ns, e.task.dest, e.task.source)
      then Some(Moved(ns, e.task.dest, e.task.source)) else None
    else if e.task.source in ns && e.task.dest !in ns then
      if SameObject(ns[e.task.source].id, e.objectId) then Some(ns) else None
    else None
  }

  function Then(o: Option<Namespace>, e: Entry): Option<Namespace> {
    if o.None? then None else Reinstated(o.value, e)
  }

  /** Undoing one entry, with the tests in the order the rollback makes them. */
  function UndoEntry(ns: Namespace, e: Entry): Option<Namespace> {
    if e.created then
      Then(Cleaned(ns, e.task.dest, e.task.kind.Directory?, e.objectId, e.cleanup), e)
    else if e.objectId.HasToken() then
      if e.task.dest !in ns then Some(ns)
      else if ns[e.task.dest].id.Valid() && ns[e.task.dest].id.token == e.objectId.token &&
              (e.objectId.Valid() ==> ns[e.task.dest].id == e.objectId)
      then Then(Cleaned(ns, e.task.dest, e.task.kind.Directory?, ns[e.task.dest].id, e.cleanup), e)
      else None
    else if e.applied then MovedHome(ns, e)
    else Reinstated(ns, e)
  }

  function UndoOpt(o: Option<Namespace>, e: Entry): Option<Namespace> {
    if o.None? then None else UndoEntry(o.value, e)
  }

  /** Undoing the first `k` entries, last first. */
  function UndoPrefix(o: Option<Namespace>, entries: seq<Entry>, k: nat): Option<Namespace>
    requires k <= |entries|
    decreases k
  {
    if k == 0 then o else UndoPrefix(UndoOpt(o, entries[k - 1]), entries, k - 1)
  }

  function TempUndone(ns: Namespace, r: Record): Option<Namespace> {
    if r.head.operation.Copy? && r.tempCreated
    then Cleaned(ns, r.tempPath, false, r.tempId, r.tempCleanup)
    else Some(ns)
  }

  /** The namespace in which recovery from record `r` ends, if it can end. */
  function Recover(ns: Namespace, r: Record): Option<Namespace> {
    UndoPrefix(TempUndone(ns, r), r.entries, |r.entries|)
  }

  /** What rolling back exactly needs of an entry: a copy marks what it creates, announces no object
      by token alone while it displaces another, and renames nothing of its own; a moved object
      carries no token. */
  predicate RollsExactly(operation: OperationKind, e: Entry) {
    if operation.Copy? then
      !e.applied && (e.created ==> e.objectId.HasToken()) &&
      (!e.created && e.objectId.HasToken() ==> e.replacement.NotReplacing?)
    else
      !e.created && !e.objectId.HasToken() && e.replacement.NotReplacing?
  }

  ghost predicate AllRoll(r: Record) {
    && (r.tempCreated ==> r.head.operation.Copy? && r.tempId.HasToken())
    && (forall j :: 0 <= j < |r.entries| ==> RollsExactly(r.head.operation, r.entries[j]))
  }

  /** The one collision recovery cannot get past: the record announces a temporary object by
      its token alone, and somebody else's object sits at that path. */
  predicate Blocked(ns: Namespace, r: Record) {
    && r.head.operation.Copy? && r.tempCreated
    && r.tempPath in ns
    && !r.tempId.Valid()
    && (!ns[r.tempPath].id.Valid() || ns[r.tempPath].id.token != r.tempId.token)
    && (r.tempCleanup.CleanupNone? || r.tempCleanup.RemovePending?)
  }

  /** The record of an operation that has not ended. */
  predicate Interrupted(r: Record) {
    (r.head.active || r.head.recoveryRequired) && r.head.entryIndex <= |r.entries|
  }

  /** The window of a forward rename: the object is at its destination and the record says that only
      the directory sync is missing, which rolling back takes to be the sync of its own rename. */
  predicate InWindow(ns: Namespace, r: Record) {
    && !r.head.operation.Copy? && r.head.entryIndex < |r.entries|
    && r.entries[r.head.entryIndex].applied && r.entries[r.head.entryIndex].cleanup.RenameSyncPending?
    && r.entries[r.head.entryIndex].task.dest in ns && r.entries[r.head.entryIndex].task.source !in ns
  }

  /** The record before the window was entered. */
  function Unwindowed(r: Record): Record
    requires r.head.entryIndex < |r.entries|
  {
    WithEntry(r, r.head.entryIndex, r.entries[r.head.entryIndex].(cleanup := RenameInProgress))
  }

  /** In the window, with nothing else between the record and a recovery that ends in `x`. */
  ghost predicate Windowed(x: Namespace, ns: Namespace, r: Record) {
    InWindow(ns, r) && Recover(ns, Unwindowed(r)) == Some(x)
  }

  /** Blocked, which takes a plan that left room for it. */
  ghost predicate Collides(x: Namespace, ns: Namespace, r: Record) {
    Blocked(ns, r) && !NamesFree(x, r)
  }

  /** What is claimed of the moments of a run: nothing; that recovery ends in one namespace unless it
      is blocked or in the window of a forward rename; or that it does without exception, from one
      moment on. */
  datatype Claim = Loose | Exact | Strict(since: nat)

  /** Recovery from this moment is possible and ends in `x`. */
  ghost predicate Good(claim: Claim, x: Namespace, ns: Namespace, r: Record) {
    && Interrupted(r) && AllRoll(r)
    && (Recover(ns, r) == Some(x) || (!claim.Strict? && (Collides(x, ns, r) || Windowed(x, ns, r))))
  }

  ghost predicate AllGood(claim: Claim, x: Namespace, history: seq<Instant>) {
    !claim.Loose? ==>
      forall k :: (if claim.Strict? then claim.since else 0) <= k < |history| ==>
        Good(claim, x, history[k].ns, history[k].saved)
  }

  /** Blocked records never recover. */
  lemma BlockedNeverRecovers(ns: Namespace, r: Record)
    ensures Blocked(ns, r) ==> Recover(ns, r) == None
  {
    NoneStaysNone(r.entries, |r.entries|);
  }

  lemma {:induction false} NoneStaysNone(entries: seq<Entry>, k: nat)
    requires k <= |entries|
    ensures UndoPrefix(None, entries, k) == None
  {
    if k != 0 { NoneStaysNone(entries, k - 1); }
  }

  // Layering.

  /** An entry with nothing left to undo. */
  predicate Settled(e: Entry) {
    !e.created && !e.applied && !e.objectId.HasToken() && e.replacement.NotReplacing?
  }

  ghost predicate SettledFrom(entries: seq<Entry>, k: nat) {
    forall j :: k <= j < |entries| ==> Settled(entries[j])
  }

  /** Entries are undone only through the prefix that is asked for. */
  lemma {:induction false} PrefixOnly(o: Option<Namespace>, a: seq<Entry>, b: seq<Entry>, k: nat)
    requires k <= |a| && k <= |b| && a[..k] == b[..k]
    ensures UndoPrefix(o, a, k) == UndoPrefix(o, b, k)
    decreases k
  {
    if k != 0 {
      assert a[k - 1] == a[..k][k - 1] == b[..k][k - 1] == b[k - 1];
      assert a[..k - 1] == a[..k][..k - 1] == b[..k][..k - 1] == b[..k - 1];
      PrefixOnly(UndoOpt(o, a[k - 1]), a, b, k - 1);
    }
  }

  /** Settled entries at the end change nothing. */
  lemma {:induction false} SettledTail(o: Option<Namespace>, entries: seq<Entry>, k: nat, n: nat)
    requires k <= n <= |entries| && SettledFrom(entries, k)
    ensures UndoPrefix(o, entries, n) == UndoPrefix(o, entries, k)
    decreases n
  {
    if k < n {
      assert UndoOpt(o, entries[n - 1]) == o;
      SettledTail(o, entries, k, n - 1);
    }
  }

  /** The temporary object and entry `i` undone: the top layer of the record. */
  function Top(ns: Namespace, r: Record, i: nat): Option<Namespace>
    requires i < |r.entries|
  {
    UndoOpt(TempUndone(ns, r), r.entries[i])
  }

  lemma RecoverByTop(ns: Namespace, r: Record, i: nat)
    requires i < |r.entries| && SettledFrom(r.entries, i + 1)
    ensures Recover(ns, r) == UndoPrefix(Top(ns, r, i), r.entries, i)
  {
    SettledTail(TempUndone(ns, r), r.entries, i + 1, |r.entries|);
  }

  /** A change confined to the temporary object, entry `i` and the namespace keeps the recovery
      result when it keeps the top layer's result. */
  lemma TopStep(ns: Namespace, r: Record, ns': Namespace, r': Record, i: nat)
    requires i < |r.entries| == |r'.entries|
    requires SettledFrom(r.entries, i + 1) && SettledFrom(r'.entries, i + 1)
    requires r.entries[..i] == r'.entries[..i]
    requires Top(ns, r, i) == Top(ns', r', i)
    ensures Recover(ns, r) == Recover(ns', r')
  {
    RecoverByTop(ns, r, i);
    RecoverByTop(ns', r', i);
    PrefixOnly(Top(ns, r, i), r.entries, r'.entries, i);
  }

  /** A change confined to the temporary object keeps the recovery result when it keeps what
      removing that object yields. */
  lemma TempStep(ns: Namespace, r: Record, ns': Namespace, r': Record)
    requires r.entries == r'.entries
    requires TempUndone(ns, r) == TempUndone(ns', r')
    ensures Recover(ns, r) == Recover(ns', r')
  {
  }

  // A slot is a path the operation created or announced: the temporary object, or the
  // destination of entry `j`.

  predicate HasSlot(r: Record, temp: bool, j: nat) { temp || j < |r.entries| }

  function SlotPath(r: Record, temp: bool, j: nat): Path
    requires HasSlot(r, temp, j)
  {
    if temp then r.tempPath else r.entries[j].task.dest
  }

  function SlotId(r: Record, temp: bool, j: nat): Identity
    requires HasSlot(r, temp, j)
  {
    if temp then r.tempId else r.entries[j].objectId
  }

  function SlotCleanup(r: Record, temp: bool, j: nat): Cleanup
    requires HasSlot(r, temp, j)
  {
    if temp then r.tempCleanup else r.entries[j].cleanup
  }

  function SlotDirectory(r: Record, temp: bool, j: nat): bool
    requires HasSlot(r, temp, j)
  {
    !temp && r.entries[j].task.kind.Directory?
  }

  function WithSlot(r: Record, temp: bool, j: nat, id: Identity, cleanup: Cleanup): (r': Record)
    requires HasSlot(r, temp, j)
    ensures HasSlot(r', temp, j)
    ensures SlotPath(r', temp, j) == SlotPath(r, temp, j) && SlotDirectory(r', temp, j) == SlotDirectory(r, temp, j)
    ensures SlotId(r', temp, j) == id && SlotCleanup(r', temp, j) == cleanup
  {
    if temp then r.(tempId := id, tempCleanup := cleanup)
    else r.(entries := r.entries[j := r.entries[j].(objectId := id, cleanup := cleanup)])
  }

  /** What removing the slot's object yields. */
  function SlotCleaned(ns: Namespace, r: Record, temp: bool, j: nat): Option<Namespace>
    requires HasSlot(r, temp, j)
  {
    Cleaned(ns, SlotPath(r, temp, j), SlotDirectory(r, temp, j), SlotId(r, temp, j), SlotCleanup(r, temp, j))
  }

  /** The slot's object is one the operation marks as its own. */
  predicate SlotHeld(r: Record, temp: bool, j: nat)
    requires HasSlot(r, temp, j)
  {
    if temp then r.head.operation.Copy? && r.tempCreated else r.entries[j].created
  }

  /** The slot is the top layer of the record: nothing above it is left to undo. */
  ghost predicate SlotOnTop(r: Record, temp: bool, j: nat)
    requires HasSlot(r, temp, j)
  {
    SlotHeld(r, temp, j) && (!temp ==> !r.tempCreated && SettledFrom(r.entries, j + 1))
  }

  /** If recovery can end, so can the removal of the top slot's object. */
  lemma SlotDefined(ns: Namespace, r: Record, temp: bool, j: nat)
    requires HasSlot(r, temp, j) && SlotOnTop(r, temp, j) && Recover(ns, r).Some?
    ensures SlotCleaned(ns, r, temp, j).Some?
  {
    if temp {
      NoneStaysNone(r.entries, |r.entries|);
    } else {
      EntryDefined(ns, r, j);
    }
  }

  /** Only the last setting of a slot counts. */
  lemma WithSlotTwice(r: Record, temp: bool, j: nat)
    requires HasSlot(r, temp, j)
    ensures forall a, b, id, c {:trigger WithSlot(WithSlot(r, temp, j, a, b), temp, j, id, c)} ::
      WithSlot(WithSlot(r, temp, j, a, b), temp, j, id, c) == WithSlot(r, temp, j, id, c)
    ensures WithSlot(r, temp, j, SlotId(r, temp, j), SlotCleanup(r, temp, j)) == r
  {
  }

  /** Progress on removing the object of the top slot keeps the recovery result when it keeps
      what the removal yields. */
  lemma SlotStep(ns: Namespace, r: Record, ns': Namespace, temp: bool, j: nat, id: Identity, cleanup: Cleanup)
    requires HasSlot(r, temp, j) && SlotOnTop(r, temp, j)
    requires SlotCleaned(ns, r, temp, j) == SlotCleaned(ns', WithSlot(r, temp, j, id, cleanup), temp, j)
    ensures Recover(ns, r) == Recover(ns', WithSlot(r, temp, j, id, cleanup))
  {
    var r' := WithSlot(r, temp, j, id, cleanup);
    if !temp {
      assert r.entries[..j] == r'.entries[..j];
      TopStep(ns, r, ns', r', j);
    }
  }

  /** What a slot whose object can be removed looks like. */
  lemma SlotRemovable(ns: Namespace, r: Record, temp: bool, j: nat)
    requires HasSlot(r, temp, j) && SlotCleaned(ns, r, temp, j).Some?
    ensures SlotId(r, temp, j).IntentValid()
    ensures !SlotCleanup(r, temp, j).RenameInProgress? && !SlotCleanup(r, temp, j).RenameSyncPending?
    ensures SlotCleanup(r, temp, j).SyncPending? ==> SlotPath(r, temp, j) !in ns
  {
  }

  /** Starting a removal changes nothing yet. */
  lemma SlotStart(ns: Namespace, r: Record, temp: bool, j: nat)
    requires HasSlot(r, temp, j) && SlotOnTop(r, temp, j) && SlotCleanup(r, temp, j).CleanupNone?
    ensures
      var r' := WithSlot(r, temp, j, SlotId(r, temp, j), RemovePending);
      && HasSlot(r', temp, j) && SlotOnTop(r', temp, j)
      && SlotPath(r', temp, j) == SlotPath(r, temp, j)
      && SlotId(r', temp, j) == SlotId(r, temp, j) && SlotCleanup(r', temp, j) == RemovePending
      && SlotCleaned(ns, r', temp, j) == SlotCleaned(ns, r, temp, j)
      && Recover(ns, r') == Recover(ns, r)
      && (temp && Blocked(ns, r) ==> Blocked(ns, r'))
  {
    SlotStep(ns, r, ns, temp, j, SlotId(r, temp, j), RemovePending);
  }

  /** Whether or not the expected object of the top slot was just removed, removing it yields the
      same namespace and recovery ends in the same place. */
  lemma SlotRemoval(ns: Namespace, r: Record, ns': Namespace, temp: bool, j: nat)
    requires HasSlot(r, temp, j) && SlotOnTop(r, temp, j)
    requires SlotId(r, temp, j).Valid() && SlotCleanup(r, temp, j).RemoveInProgress?
    requires ns' == ns || (SlotPath(r, temp, j) in ns && ns[SlotPath(r, temp, j)].id == SlotId(r, temp, j) &&
                           RemoveNode(ns, SlotPath(r, temp, j), SlotDirectory(r, temp, j)) == Some(ns'))
    ensures SlotCleaned(ns', r, temp, j) == SlotCleaned(ns, r, temp, j)
    ensures SlotPath(r, temp, j) !in ns' ==> SlotCleaned(ns', r, temp, j) == Some(ns')
    ensures SlotCleaned(ns, r, temp, j).Some? ==>
      SlotPath(r, temp, j) !in ns ||
      (ns[SlotPath(r, temp, j)].id == SlotId(r, temp, j) &&
       RemoveNode(ns, SlotPath(r, temp, j), SlotDirectory(r, temp, j)).Some?)
    ensures Recover(ns', r) == Recover(ns, r)
  {
    WithSlotTwice(r, temp, j);
    SlotStep(ns, r, ns', temp, j, SlotId(r, temp, j), SlotCleanup(r, temp, j));
  }

  function WithEntry(r: Record, j: nat, e: Entry): Record
    requires j < |r.entries|
  {
    r.(entries := r.entries[j := e])
  }

  lemma WithEntryTwice(r: Record, j: nat)
    requires j < |r.entries|
    ensures forall a, b {:trigger WithEntry(WithEntry(r, j, a), j, b)} ::
      WithEntry(WithEntry(r, j, a), j, b) == WithEntry(r, j, b)
    ensures WithEntry(r, j, r.entries[j]) == r
  {
  }

  /** Nothing above entry `j` is left to undo, and there is no temporary object. */
  ghost predicate EntryOnTop(r: Record, j: nat) {
    j < |r.entries| && !r.tempCreated && SettledFrom(r.entries, j + 1)
  }

  /** Progress on undoing the last unsettled entry keeps the recovery result when it keeps the
      result of undoing that entry. */
  lemma EntryStep(ns: Namespace, r: Record, ns': Namespace, j: nat, e: Entry)
    requires EntryOnTop(r, j) && UndoEntry(ns, r.entries[j]) == UndoEntry(ns', e)
    ensures EntryOnTop(WithEntry(r, j, e), j)
    ensures Recover(ns, r) == Recover(ns', WithEntry(r, j, e))
  {
    var r' := WithEntry(r, j, e);
    assert r.entries[..j] == r'.entries[..j];
    TopStep(ns, r, ns', r', j);
  }

  /** If recovery can end, undoing the last unsettled entry has a result. */
  lemma EntryDefined(ns: Namespace, r: Record, j: nat)
    requires EntryOnTop(r, j) && Recover(ns, r).Some?
    ensures UndoEntry(ns, r.entries[j]).Some?
  {
    RecoverByTop(ns, r, j);
    if UndoEntry(ns, r.entries[j]).None? { NoneStaysNone(r.entries, j); }
  }

  /** The entry with its replacement forgotten. */
  function Forgotten(e: Entry): Entry {
    e.(replacement := NotReplacing, backup := [], backupId := NO_IDENTITY)
  }

  /** Nothing but the replacement differs. */
  predicate SameButReplacement(a: Entry, b: Entry) {
    b == a.(replacement := b.replacement, backup := b.backup, backupId := b.backupId)
  }

  /** A bare replacement: the entry's own object is gone, the displaced one is still to be put back. */
  predicate OnlyReplacing(e: Entry) {
    !e.created && !e.applied && !e.objectId.HasToken() && !e.replacement.NotReplacing?
  }

  /** If recovery can end and the destination is free, the displaced object can be moved back. */
  lemma ReinstateReady(ns: Namespace, r: Record, j: nat)
    requires EntryOnTop(r, j) && OnlyReplacing(r.entries[j]) && Recover(ns, r).Some?
    requires r.entries[j].task.dest !in ns
    ensures CanMove(ns, r.entries[j].backup, r.entries[j].task.dest)
    ensures SameObject(ns[r.entries[j].backup].id, r.entries[j].backupId)
  {
    EntryDefined(ns, r, j);
  }

  lemma ReinstatedDefined(ns: Namespace, e: Entry)
    requires OnlyReplacing(e) && Reinstated(ns, e).Some?
    ensures e.backupId.Valid() && !e.replacement.UndoRemoveInProgress? && !e.replacement.UndoRestoreInProgress?
  {
  }

  /** The stages of a held replacement all mean the same. */
  lemma RestoreStage(ns: Namespace, r: Record, j: nat)
    requires EntryOnTop(r, j) && OnlyReplacing(r.entries[j])
    requires !r.entries[j].replacement.UndoRemoveInProgress? && !r.entries[j].replacement.UndoRestoreInProgress?
    ensures
      var e := r.entries[j].(replacement := RestoreInProgress);
      && OnlyReplacing(e) && EntryOnTop(WithEntry(r, j, e), j)
      && Reinstated(ns, e) == Reinstated(ns, r.entries[j])
      && Recover(ns, WithEntry(r, j, e)) == Recover(ns, r)
  {
    EntryStep(ns, r, ns, j, r.entries[j].(replacement := RestoreInProgress));
  }

  /** The rename back and the record that announces it: before and after, undoing ends alike. */
  lemma ReinstateStep(ns: Namespace, r: Record, j: nat)
    requires Closed(ns) && EntryOnTop(r, j) && OnlyReplacing(r.entries[j])
    requires !r.entries[j].replacement.UndoRemoveInProgress? && !r.entries[j].replacement.UndoRestoreInProgress?
    requires CanMove(ns, r.entries[j].backup, r.entries[j].task.dest)
    requires SameObject(ns[r.entries[j].backup].id, r.entries[j].backupId)
    ensures
      var e := r.entries[j];
      var ns' := Moved(ns, e.backup, e.task.dest);
      Reinstated(ns, e) == Some(ns') == Reinstated(ns', e) && Recover(ns', r) == Recover(ns, r)
  {
    var e := r.entries[j];
    MovedEnds(ns, e.backup, e.task.dest);
    EntryStep(ns, r, Moved(ns, e.backup, e.task.dest), j, e);
    assert WithEntry(r, j, e) == r;
  }

  /** With everything settled and no temporary object, recovery is finished. */
  lemma NothingLeft(ns: Namespace, r: Record)
    requires SettledFrom(r.entries, 0) && !r.tempCreated
    ensures Recover(ns, r) == Some(ns)
  {
    SettledTail(Some(ns), r.entries, 0, |r.entries|);
  }

  lemma NothingRollable(ns: Namespace, r: Record)
    requires Rollable(r) && r.head.rollbackIndex == 0 && !r.tempCreated
    ensures Recover(ns, r) == Some(ns)
  {
    NothingLeft(ns, r);
  }

  // How much rolling back is left.

  function Weight(e: Entry): nat {
    var replacing := if e.replacement.NotReplacing? then 0 else 1;
    if e.created then 1 + replacing
    else if e.objectId.HasToken() then 2 + replacing
    else if e.applied then 1
    else replacing
  }

  function Weights(entries: seq<Entry>, k: nat): nat
    requires k <= |entries|
  {
    if k == 0 then 0 else Weights(entries, k - 1) + Weight(entries[k - 1])
  }

  function Work(r: Record): nat
    requires r.head.rollbackIndex <= |r.entries|
  {
    (if r.tempCreated then 1 else 0) + Weights(r.entries, r.head.rollbackIndex)
  }

  lemma {:induction false} WeightsBound(entries: seq<Entry>, k: nat)
    requires k <= |entries|
    ensures Weights(entries, k) <= 3 * k
  {
    if k != 0 { WeightsBound(entries, k - 1); }
  }

  lemma {:induction false} WeightsPrefix(a: seq<Entry>, b: seq<Entry>, k: nat)
    requires k <= |a| && k <= |b| && a[..k] == b[..k]
    ensures Weights(a, k) == Weights(b, k)
  {
    if k != 0 {
      assert a[k - 1] == a[..k][k - 1] == b[..k][k - 1] == b[k - 1];
      assert a[..k - 1] == a[..k][..k - 1] == b[..k][..k - 1] == b[..k - 1];
      WeightsPrefix(a, b, k - 1);
    }
  }

  /** Changing the entry under rollback changes the remaining work by that entry's weight. */
  lemma WorkOfEntry(r: Record, j: nat, e: Entry)
    requires j + 1 == r.head.rollbackIndex <= |r.entries|
    ensures Work(WithEntry(r, j, e)) == Work(r) - Weight(r.entries[j]) + Weight(e)
  {
    assert r.entries[..j] == WithEntry(r, j, e).entries[..j];
    WeightsPrefix(r.entries, WithEntry(r, j, e).entries, j);
  }

  /** Leaving the entry under rollback behind. */
  function Below(r: Record): Record
    requires r.head.rollbackIndex != 0
  {
    r.(head := r.head.(rollbackIndex := r.head.rollbackIndex - 1))
  }

  /** The entries above the rollback index are settled, and all roll back exactly. */
  ghost predicate Rollable(r: Record) {
    r.head.rollbackIndex <= |r.entries| && SettledFrom(r.entries, r.head.rollbackIndex) && AllRoll(r)
  }

  /** The record with its header replaced. */
  function WithHead(r: Record, h: Header): Record { r.(head := h) }

  /** Of the header, only the kind of operation matters to recovery. */
  lemma HeadStep(ns: Namespace, r: Record, h: Header)
    requires h.operation == r.head.operation
    ensures Recover(ns, WithHead(r, h)) == Recover(ns, r) && Blocked(ns, WithHead(r, h)) == Blocked(ns, r)
    ensures h.policy == r.head.policy ==> forall x :: NamesFree(x, WithHead(r, h)) == NamesFree(x, r)
    ensures Restorable(WithHead(r, h)) == Restorable(r) && AllRoll(WithHead(r, h)) == AllRoll(r)
  {
    assert WithHead(r, h).entries == r.entries;
    assert AllRoll(WithHead(r, h)) == AllRoll(r) by {
      assert forall j :: 0 <= j < |r.entries| ==> WithHead(r, h).entries[j] == r.entries[j];
    }
  }

  lemma RollableOnTop(r: Record)
    requires Rollable(r) && !r.tempCreated && r.head.rollbackIndex != 0
    ensures EntryOnTop(r, r.head.rollbackIndex - 1)
    ensures RollsExactly(r.head.operation, r.entries[r.head.rollbackIndex - 1])
  {
  }

  /** The record without a temporary object. */
  function TempCleared(r: Record): Record {
    r.(tempCreated := false, tempPath := [], tempId := NO_IDENTITY, tempCleanup := CleanupNone)
  }

  /** Once the temporary object is gone, its record can go. */
  lemma TempClearedStep(ns: Namespace, r: Record)
    requires r.head.operation.Copy? && r.tempCreated && r.tempPath !in ns && r.tempId.IntentValid()
    requires r.tempCleanup.CleanupNone?
    ensures Recover(ns, TempCleared(r)) == Recover(ns, r)
    ensures Restorable(r) ==> Restorable(TempCleared(r))
  {
    TempStep(ns, r, ns, TempCleared(r));
  }

  /** The same plan, operation and place in it; the rollback may have come further. */
  predicate SamePlan(a: Record, b: Record) {
    SameTasks(a.entries, b.entries) && b.head == a.head.(rollbackIndex := b.head.rollbackIndex)
  }

  /** Nothing but the entries and the rollback index differs. */
  predicate SameShape(a: Record, b: Record) {
    SameTasks(a.entries, b.entries) &&
    b == a.(head := a.head.(rollbackIndex := b.head.rollbackIndex), entries := b.entries)
  }

  /** The record with a new entry under rollback, and possibly with that entry left behind. */
  function Stepped(r: Record, e: Entry, below: bool): Record
    requires 0 != r.head.rollbackIndex <= |r.entries|
  {
    var next := WithEntry(r, r.head.rollbackIndex - 1, e);
    if below then Below(next) else next
  }

  /** What such a step does to the remaining work and to the shape of the record. */
  lemma StepTo(r: Record, e: Entry, below: bool)
    requires 0 != r.head.rollbackIndex <= |r.entries| && SameTask(r.entries[r.head.rollbackIndex - 1], e)
    ensures Stepped(r, e, below).head.rollbackIndex <= |Stepped(r, e, below).entries|
    ensures SameShape(r, Stepped(r, e, below))
    ensures Work(Stepped(r, e, below))
         == Work(r) - Weight(r.entries[r.head.rollbackIndex - 1]) + if below then 0 else Weight(e)
    ensures Rollable(r) && RollsExactly(r.head.operation, e) && (below ==> Settled(e)) ==>
      Rollable(Stepped(r, e, below))
    ensures forall ns :: Recover(ns, Stepped(r, e, below)) == Recover(ns, Stepped(r, e, false))
  {
    var j := r.head.rollbackIndex - 1;
    WorkOfEntry(r, j, e);
    StepRollable(r, e, below);
    hide AllRoll, SettledFrom;
    if below {
      var next := WithEntry(r, j, e);
      assert Work(Below(next)) == Work(next) - Weight(e);
      forall ns ensures Recover(ns, Below(next)) == Recover(ns, next) { }
    }
  }

  lemma StepRollable(r: Record, e: Entry, below: bool)
    requires 0 != r.head.rollbackIndex <= |r.entries|
    ensures Rollable(r) && RollsExactly(r.head.operation, e) && (below ==> Settled(e)) ==>
      Rollable(Stepped(r, e, below))
  {
  }

  /** The entry once its own object is gone. */
  function Cleared(e: Entry): Entry {
    e.(created := false, cleanup := CleanupNone, objectId := NO_IDENTITY)
  }

  lemma ClearedStep(ns: Namespace, e: Entry)
    requires e.created && !e.applied && e.task.dest !in ns && e.objectId.IntentValid() && e.cleanup.CleanupNone?
    ensures UndoEntry(ns, e) == UndoEntry(ns, Cleared(e)) == Reinstated(ns, e)
  {
  }

  /** An announced object that was never created: nothing to remove. */
  lemma UnbornStep(ns: Namespace, e: Entry)
    requires !e.created && !e.applied && e.objectId.HasToken() && e.replacement.NotReplacing? && e.task.dest !in ns
    ensures UndoEntry(ns, e) == Some(ns) == UndoEntry(ns, e.(objectId := NO_IDENTITY))
  {
  }

  /** An announced object that was created is one of the operation's own. */
  lemma BornStep(ns: Namespace, e: Entry)
    requires !e.created && e.objectId.HasToken() && e.task.dest in ns
    requires ns[e.task.dest].id.Valid() && ns[e.task.dest].id.token == e.objectId.token
    requires e.objectId.Valid() ==> ns[e.task.dest].id == e.objectId
    ensures UndoEntry(ns, e) == UndoEntry(ns, e.(created := true, objectId := ns[e.task.dest].id))
  {
  }

  lemma BornDefined(ns: Namespace, e: Entry)
    requires !e.created && e.objectId.HasToken() && e.task.dest in ns && UndoEntry(ns, e).Some?
    ensures ns[e.task.dest].id.Valid() && ns[e.task.dest].id.token == e.objectId.token
    ensures e.objectId.Valid() ==> ns[e.task.dest].id == e.objectId
  {
  }

  // A renamed object on its way home.

  predicate OnlyMoved(e: Entry) {
    e.applied && !e.created && !e.objectId.HasToken() && e.replacement.NotReplacing?
  }

  function Home(e: Entry): Entry {
    e.(applied := false, cleanup := CleanupNone, objectId := NO_IDENTITY)
  }

  lemma HomewardReady(ns: Namespace, r: Record, j: nat)
    requires EntryOnTop(r, j) && OnlyMoved(r.entries[j]) && Recover(ns, r).Some?
    ensures
      var e := r.entries[j];
      && e.objectId.Valid()
      && (e.cleanup.CleanupNone? || e.cleanup.RenameInProgress? || e.cleanup.RenameSyncPending?)
      && (!e.cleanup.RenameSyncPending? ==>
            if e.task.source in ns then e.task.dest !in ns && SameObject(ns[e.task.source].id, e.objectId)
            else CanMove(ns, e.task.dest, e.task.source) && SameObject(ns[e.task.dest].id, e.objectId))
  {
    EntryDefined(ns, r, j);
  }

  /** The rename home and the record that announces it: before and after, undoing ends alike. */
  lemma HomewardStep(ns: Namespace, r: Record, j: nat)
    requires Closed(ns) && EntryOnTop(r, j) && OnlyMoved(r.entries[j]) && r.entries[j].objectId.Valid()
    requires r.entries[j].cleanup.RenameInProgress?
    requires CanMove(ns, r.entries[j].task.dest, r.entries[j].task.source) &&
      SameObject(ns[r.entries[j].task.dest].id, r.entries[j].objectId)
    ensures Recover(Moved(ns, r.entries[j].task.dest, r.entries[j].task.source), r) == Recover(ns, r)
    ensures r.entries[j].task.source in Moved(ns, r.entries[j].task.dest, r.entries[j].task.source)
    ensures r.entries[j].task.dest !in Moved(ns, r.entries[j].task.dest, r.entries[j].task.source)
    ensures SameObject(Moved(ns, r.entries[j].task.dest, r.entries[j].task.source)[r.entries[j].task.source].id,
      r.entries[j].objectId)
  {
    var e := r.entries[j];
    MovedEnds(ns, e.task.dest, e.task.source);
    EntryStep(ns, r, Moved(ns, e.task.dest, e.task.source), j, e);
    WithEntryTwice(r, j);
  }

  lemma HomeStages(ns: Namespace, e: Entry)
    requires OnlyMoved(e) && e.objectId.Valid()
    ensures e.cleanup.CleanupNone? ==> UndoEntry(ns, e) == UndoEntry(ns, e.(cleanup := RenameInProgress))
    ensures (e.cleanup.RenameInProgress? && e.task.source in ns && e.task.dest !in ns &&
             SameObject(ns[e.task.source].id, e.objectId)) ==>
      UndoEntry(ns, e) == UndoEntry(ns, e.(cleanup := RenameSyncPending))
    ensures e.cleanup.RenameSyncPending? ==> UndoEntry(ns, e) == UndoEntry(ns, Home(e))
  {
  }
}
