/** Why each forward step of a copy leaves the outcome of recovery unchanged. */
module ForwardSpec {
  import opened Common
  import opened Namespaces
  import opened UndoSpec

  // Displacing the object at the destination.

  function Displacing(e: Entry, backup: Path, id: Identity): Entry {
    e.(replacement := BackupInProgress, backup := backup, backupId := id)
  }

  lemma DisplacingStep(ns: Namespace, e: Entry, backup: Path)
    requires Settled(e) && e.task.dest in ns && ns[e.task.dest].id.Valid() && backup !in ns
    ensures UndoEntry(ns, Displacing(e, backup, ns[e.task.dest].id)) == UndoEntry(ns, e)
  {
  }

  /** A displacement still under way or complete. */
  predicate Displaced(e: Entry) {
    OnlyReplacing(e) && !e.replacement.UndoRemoveInProgress? && !e.replacement.UndoRestoreInProgress?
  }

  /** Before and after the displacing rename, putting the object back gives the original tree. */
  lemma DisplacedUndone(ns: Namespace, e: Entry)
    requires Closed(ns) && Displaced(e) && CanMove(ns, e.task.dest, e.backup) &&
      SameObject(ns[e.task.dest].id, e.backupId)
    ensures e.task.dest !in Moved(ns, e.task.dest, e.backup)
    ensures UndoEntry(ns, e) == Some(ns) == UndoEntry(Moved(ns, e.task.dest, e.backup), e)
  {
    hide Moved, Closed;
    var ns' := Moved(ns, e.task.dest, e.backup);
    assert CanMove(ns', e.backup, e.task.dest) && Moved(ns', e.backup, e.task.dest) == ns by {
      MoveThereAndBack(ns, e.task.dest, e.backup);
    }
    assert e.task.dest !in ns' && ns'[e.backup].id == e.backupId by { MovedEnds(ns, e.task.dest, e.backup); }
  }

  lemma DisplacedStep(ns: Namespace, r: Record, j: nat)
    requires Closed(ns) && EntryOnTop(r, j) && Displaced(r.entries[j])
    requires CanMove(ns, r.entries[j].task.dest, r.entries[j].backup)
    requires SameObject(ns[r.entries[j].task.dest].id, r.entries[j].backupId)
    ensures
      var ns' := Moved(ns, r.entries[j].task.dest, r.entries[j].backup);
      r.entries[j].task.dest !in ns' && Recover(ns', r) == Recover(ns, r)
  {
    DisplacedUndone(ns, r.entries[j]);
    WithEntryTwice(r, j);
    hide Moved, Closed, UndoEntry, Recover;
    EntryStep(ns, r, Moved(ns, r.entries[j].task.dest, r.entries[j].backup), j, r.entries[j]);
  }

  lemma HeldStep(ns: Namespace, e: Entry)
    requires Displaced(e)
    ensures UndoEntry(ns, e.(replacement := BackupHeld)) == UndoEntry(ns, e)
  {
  }

  // The temporary object.

  function TempAnnounced(r: Record, p: Path, token: Token): Record {
    r.(tempCreated := true, tempPath := p, tempId := TokenOnly(token), tempCleanup := CleanupNone)
  }

  /** Announcing the temporary object either changes nothing or runs into a foreign object. */
  lemma TempAnnouncedStep(ns: Namespace, r: Record, p: Path, token: Token)
    requires r.head.operation.Copy? && !r.tempCreated && token != 0
    requires p in ns ==> ns[p].id.token != token
    ensures p !in ns ==> Recover(ns, TempAnnounced(r, p, token)) == Recover(ns, r)
    ensures p in ns ==> Blocked(ns, TempAnnounced(r, p, token))
  {
    if p !in ns { TempStep(ns, r, ns, TempAnnounced(r, p, token)); }
  }

  lemma TempMadeStep(ns: Namespace, r: Record, node: Node)
    requires Closed(ns) && r.head.operation.Copy? && r.tempCreated && r.tempCleanup.CleanupNone?
    requires CanCreate(ns, r.tempPath) && node.kind.FileNode? && node.id.Valid()
    requires r.tempId == TokenOnly(node.id.token) && node.id.HasToken()
    ensures
      var ns' := ns[r.tempPath := node];
      && Recover(ns', r) == Recover(ns, r) && !Blocked(ns', r)
      && Recover(ns', r.(tempId := node.id)) == Recover(ns, r)
  {
    var ns' := ns[r.tempPath := node];
    CreateThenRemove(ns, r.tempPath, node);
    TempStep(ns, r, ns', r);
    TempStep(ns, r, ns', r.(tempId := node.id));
  }

  /** The temporary object exists under its recorded identity. */
  predicate TempStands(ns: Namespace, r: Record) {
    && r.head.operation.Copy? && r.tempCreated && r.tempCleanup.CleanupNone? && r.tempId.Valid()
    && r.tempPath in ns && ns[r.tempPath].id == r.tempId && ns[r.tempPath].kind.FileNode?
    && NoChildren(ns, r.tempPath)
  }

  lemma TempWrittenStep(ns: Namespace, r: Record, content: seq<bv8>)
    requires TempStands(ns, r)
    ensures
      var ns' := ns[r.tempPath := ns[r.tempPath].(content := content)];
      TempStands(ns', r) && Recover(ns', r) == Recover(ns, r)
  {
    var ns' := ns[r.tempPath := ns[r.tempPath].(content := content)];
    assert ns' - {r.tempPath} == ns - {r.tempPath};
    TempStep(ns, r, ns', r);
  }

  // Publishing the temporary object.

  function Publishing(r: Record, i: nat): Record
    requires i < |r.entries|
  {
    var e := r.entries[i];
    WithEntry(r, i, e.(created := true, objectId := r.tempId,
      replacement := if e.replacement.BackupHeld? then PublishInProgress else e.replacement))
  }

  /** The entry under way: nothing made yet, nothing displaced or the displaced object held. */
  predicate Underway(e: Entry) {
    && !e.created && !e.applied && !e.objectId.HasToken() && e.cleanup.CleanupNone?
    && (e.replacement.NotReplacing? || e.replacement.BackupHeld?)
  }

  lemma PublishingStep(ns: Namespace, r: Record, i: nat)
    requires TempStands(ns, r) && i < |r.entries| && SettledFrom(r.entries, i + 1) && Underway(r.entries[i])
    requires r.entries[i].task.dest !in ns
    ensures Recover(ns, Publishing(r, i)) == Recover(ns, r)
  {
    var r' := Publishing(r, i);
    assert r.entries[..i] == r'.entries[..i];
    TopStep(ns, r, ns, r', i);
  }

  /** Entry `i` is recorded as created under the identity of the temporary object. */
  predicate PublishAnnounced(r: Record, i: nat) {
    && i < |r.entries| && r.entries[i].created && r.entries[i].objectId == r.tempId
    && r.entries[i].cleanup.CleanupNone? && r.entries[i].task.kind.File?
  }

  /** Whether or not the temporary name survives, undoing after publication ends where undoing
      before it would have. */
  lemma PublishedStep(ns: Namespace, r: Record, i: nat, ns': Namespace)
    requires Closed(ns) && TempStands(ns, r) && PublishAnnounced(r, i) && SettledFrom(r.entries, i + 1)
    requires CanCreate(ns, r.entries[i].task.dest) && !(r.tempPath <= r.entries[i].task.dest)
    requires
      var both := ns[r.entries[i].task.dest := ns[r.tempPath]];
      ns' == both || ns' == both - {r.tempPath}
    ensures Recover(ns', r) == Recover(ns, r)
  {
    var e := r.entries[i];
    var below := ns - {r.tempPath};
    var both := ns[e.task.dest := ns[r.tempPath]];
    FreeHasNoChildren(ns, e.task.dest);
    assert both - {r.tempPath} == below[e.task.dest := ns[r.tempPath]];
    assert below[e.task.dest := ns[r.tempPath]] - {e.task.dest} == below;
    assert TempUndone(ns', r) == Some(both - {r.tempPath});
    assert TempUndone(ns, r) == Some(below);
    TopStep(ns, r, ns', r, i);
  }

  function Published(r: Record, i: nat): Record
    requires i < |r.entries|
  {
    var e := r.entries[i];
    WithEntry(r, i, e.(replacement := if e.replacement.PublishInProgress? then BackupHeld else e.replacement))
  }

  lemma PublishedRecordStep(ns: Namespace, r: Record, i: nat)
    requires i < |r.entries| && SettledFrom(r.entries, i + 1) && r.entries[i].created
    ensures Recover(ns, Published(r, i)) == Recover(ns, r)
  {
    var r' := Published(r, i);
    assert r.entries[..i] == r'.entries[..i];
    TopStep(ns, r, ns, r', i);
  }

  // Objects created in place: directories, symbolic links and hard links.

  predicate SameKind(kind: EntryKind, node: NodeKind) {
    kind.Directory? == node.DirectoryNode?
  }

  lemma AnnouncedStep(ns: Namespace, e: Entry, id: Identity)
    requires Settled(e) && e.task.dest !in ns && id.HasToken()
    ensures UndoEntry(ns, e.(objectId := id)) == UndoEntry(ns, e)
  {
  }

  /** The announced object appears. */
  lemma AppearedStep(ns: Namespace, e: Entry, node: Node)
    requires Closed(ns) && CanCreate(ns, e.task.dest) && SameKind(e.task.kind, node.kind)
    requires !e.created && e.objectId.HasToken() && e.cleanup.CleanupNone? && e.replacement.NotReplacing?
    requires node.id.Valid() && node.id.token == e.objectId.token && (e.objectId.Valid() ==> node.id == e.objectId)
    ensures UndoEntry(ns[e.task.dest := node], e) == UndoEntry(ns, e)
  {
    CreateThenRemove(ns, e.task.dest, node);
  }

  function Made(e: Entry, id: Identity): Entry { e.(created := true, objectId := id) }

  /** Creating the object and recording it, with or without a displaced predecessor. */
  lemma MadeStep(ns: Namespace, e: Entry, node: Node)
    requires Closed(ns) && CanCreate(ns, e.task.dest) && SameKind(e.task.kind, node.kind)
    requires Underway(e) && node.id.Valid()
    ensures UndoEntry(ns[e.task.dest := node], Made(e, node.id)) == UndoEntry(ns, e)
  {
    CreateThenRemove(ns, e.task.dest, node);
  }
}
