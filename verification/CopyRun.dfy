/** Whole runs of a copy. */
module CopyRun {
  import opened Common
  import opened Namespaces
  import opened UndoSpec
  import opened ForwardSpec
  import opened FileBackend
  import opened FileOperations
  import opened FileCopy
  import opened CopyStream

  // What a copy that nobody disturbs keeps between two pumps.

  /** An entry whose object is in place. */
  predicate Done(e: Entry) {
    && e.created && !e.applied && !e.skip && e.cleanup.CleanupNone? && e.objectId.Valid() && e.objectId.HasToken()
    && (e.replacement.NotReplacing? || e.replacement.BackupHeld?)
  }

  predicate Finished(e: Entry) { Pristine(e) || Done(e) }

  /** An entry is skipped by its own mark or with a skipped directory above its source. */
  predicate Skipped(entries: seq<Entry>, i: nat)
    requires i < |entries|
  {
    entries[i].skip ||
    exists k :: 0 <= k < i && entries[k].skip && entries[k].task.kind.Directory? &&
      entries[k].task.source <= entries[i].task.source
  }

  /** Of the first `i` entries, each is in place or was skipped. */
  ghost predicate FinishedUpTo(entries: seq<Entry>, i: nat) {
    i <= |entries| && forall j :: 0 <= j < i ==> Finished(entries[j]) && (entries[j].created || Skipped(entries, j))
  }

  /** What comes after an entry has no say in whether it is skipped. */
  lemma SkippedPrefix(a: seq<Entry>, b: seq<Entry>, i: nat)
    requires i <= |a| && i <= |b| && a[..i] == b[..i]
    ensures forall j :: 0 <= j < i ==> Skipped(a, j) == Skipped(b, j)
    ensures FinishedUpTo(a, i) == FinishedUpTo(b, i)
  {
    assert forall j :: 0 <= j < i ==> a[j] == a[..i][j] == b[..i][j] == b[j];
    forall j | 0 <= j < i ensures Skipped(a, j) == Skipped(b, j) {
      if Skipped(a, j) && !a[j].skip {
        var k :| 0 <= k < j && a[k].skip && a[k].task.kind.Directory? && a[k].task.source <= a[j].task.source;
        assert b[k] == a[k];
      }
      if Skipped(b, j) && !b[j].skip {
        var k :| 0 <= k < j && b[k].skip && b[k].task.kind.Directory? && b[k].task.source <= b[j].task.source;
        assert a[k] == b[k];
      }
    }
  }

  ghost predicate PristineFrom(entries: seq<Entry>, i: nat) {
    forall j :: i <= j < |entries| ==> Pristine(entries[j])
  }

  /** Everything that was there at the start still is, unchanged. */
  ghost predicate Extends(x: Namespace, ns: Namespace) {
    forall p :: p in x ==> p in ns && ns[p] == x[p]
  }

  /** The kind of node an entry makes; a hard link shares whatever file it links to. */
  predicate RightKind(kind: EntryKind, node: NodeKind) {
    match kind
    case File => node.FileNode?
    case Directory => node.DirectoryNode?
    case Symlink => node.SymlinkNode?
    case Hardlink => !node.DirectoryNode?
  }

  /** A file has the bytes, and a symbolic link the target, that its source had at the start. */
  predicate Carried(x: Namespace, task: Task, node: Node) {
    (task.kind.File? || task.kind.Symlink?) && task.source in x ==> node.content == x[task.source].content
  }

  /** A hard link is a second name for the object of the entry it links to. */
  predicate Shares(ns: Namespace, entries: seq<Entry>, j: nat)
    requires j < |entries|
  {
    var task := entries[j].task;
    entries[j].created && task.kind.Hardlink? ==>
      && task.linkSource < j && entries[task.linkSource].created
      && task.dest in ns && entries[task.linkSource].task.dest in ns
      && ns[task.dest] == ns[entries[task.linkSource].task.dest]
  }

  /** What the entry created stands at its destination, with its kind and its content. */
  predicate Placed(x: Namespace, ns: Namespace, e: Entry) {
    e.created ==>
      && e.task.dest in ns && ns[e.task.dest].id == e.objectId && RightKind(e.task.kind, ns[e.task.dest].kind)
      && Carried(x, e.task, ns[e.task.dest])
  }

  /** The destination of entry `j` was there at the start, or an entry before it created it. */
  ghost predicate Taken(x: Namespace, entries: seq<Entry>, j: nat)
    requires j < |entries|
  {
    entries[j].task.dest in x || MadeAt(entries[..j], entries[j].task.dest)
  }

  /** The path is the destination of an entry that was created. */
  ghost predicate MadeAt(entries: seq<Entry>, p: Path) {
    exists j :: 0 <= j < |entries| && entries[j].created && entries[j].task.dest == p
  }

  lemma MadeStays(a: seq<Entry>, b: seq<Entry>, p: Path)
    requires |a| == |b| && MadeAt(a, p)
    requires forall j :: 0 <= j < |a| ==> SameTask(a[j], b[j]) && (a[j].created ==> b[j].created)
    ensures MadeAt(b, p)
  {
    var j :| 0 <= j < |a| && a[j].created && a[j].task.dest == p;
    assert SameTask(a[j], b[j]);
  }

  /** Undoing finished entries that replaced nothing takes away their destinations and nothing else. */
  lemma {:induction false} UndoneDestinations(ns: Namespace, entries: seq<Entry>, k: nat, x: Namespace)
    requires k <= |entries| && UndoPrefix(Some(ns), entries, k) == Some(x)
    requires forall j :: 0 <= j < |entries| ==> Finished(entries[j]) && entries[j].replacement.NotReplacing?
    ensures forall p :: p in x ==> p in ns && !MadeAt(entries[..k], p)
    ensures forall p :: p in ns ==> p in x || MadeAt(entries[..k], p)
    decreases k
  {
    if k != 0 {
      var e := entries[k - 1];
      var below := UndoOpt(Some(ns), e);
      if below.None? {
        NoneStaysNone(entries, k - 1);
      } else {
        UndoneDestinations(below.value, entries, k - 1, x);
        assert entries[..k] == entries[..k - 1] + [e];
        forall p ensures MadeAt(entries[..k], p) <==> MadeAt(entries[..k - 1], p) || (e.created && e.task.dest == p) {
          MadeSnoc(entries[..k - 1], e, p);
        }
        assert below.value == ns || (e.created && below.value == ns - {e.task.dest});
        assert e.created ==> e.task.dest !in below.value;
      }
    }
  }

  lemma MadeSnoc(entries: seq<Entry>, e: Entry, p: Path)
    ensures MadeAt(entries + [e], p) <==> MadeAt(entries, p) || (e.created && e.task.dest == p)
  {
    var all := entries + [e];
    if MadeAt(entries, p) {
      var j :| 0 <= j < |entries| && entries[j].created && entries[j].task.dest == p;
      assert all[j] == entries[j];
    }
    if e.created && e.task.dest == p { assert all[|entries|] == e; }
    if MadeAt(all, p) {
      var j :| 0 <= j < |all| && all[j].created && all[j].task.dest == p;
      assert j < |entries| ==> entries[j] == all[j];
    }
  }

  ghost predicate Intact(x: Namespace, ns: Namespace, entries: seq<Entry>) {
    && Extends(x, ns)
    && (forall j :: 0 <= j < |entries| ==> Placed(x, ns, entries[j]) && entries[j].replacement.NotReplacing?)
    && (forall j :: 0 <= j < |entries| ==> entries[j].skip ==> Taken(x, entries, j))
    && (forall j :: 0 <= j < |entries| ==> Shares(ns, entries, j))
  }

  /** What is taken stays taken while entries are created. */
  lemma TakenStays(x: Namespace, a: seq<Entry>, b: seq<Entry>)
    requires |a| == |b| && forall j :: 0 <= j < |a| ==> SameTask(a[j], b[j]) && (a[j].created ==> b[j].created)
    ensures forall j :: 0 <= j < |a| ==> Taken(x, a, j) ==> Taken(x, b, j)
  {
    forall j | 0 <= j < |a| && Taken(x, a, j) ensures Taken(x, b, j) {
      assert SameTask(a[j], b[j]);
      if MadeAt(a[..j], a[j].task.dest) {
        forall k | 0 <= k < j
          ensures SameTask(a[..j][k], b[..j][k]) && (a[..j][k].created ==> b[..j][k].created)
        {
          assert SameTask(a[k], b[k]);
        }
        MadeStays(a[..j], b[..j], a[j].task.dest);
      }
    }
  }

  // The same of a copy that may replace what it finds.

  /** No destination lies at or above a source or the destination of an earlier entry. */
  ghost predicate Unmixed(entries: seq<Entry>) {
    forall j, k :: 0 <= j < |entries| && 0 <= k < |entries| ==>
      && !(entries[j].task.dest <= entries[k].task.source)
      && (k < j ==> !(entries[j].task.dest <= entries[k].task.dest))
  }

  /** Sources are as they were, and what was created stands. */
  ghost predicate Spared(x: Namespace, ns: Namespace, entries: seq<Entry>) {
    forall j :: 0 <= j < |entries| ==> Placed(x, ns, entries[j]) && SourceKept(x, ns, entries[j].task)
  }

  predicate SourceKept(x: Namespace, ns: Namespace, task: Task) {
    task.source in x ==> task.source in ns && ns[task.source] == x[task.source]
  }

  /** The path is none of those. */
  ghost predicate Aside(x: Namespace, entries: seq<Entry>, p: Path) {
    forall j :: 0 <= j < |entries| ==>
      && (entries[j].task.source in x ==> entries[j].task.source != p)
      && (entries[j].created ==> entries[j].task.dest != p)
  }

  lemma FreeIsAside(x: Namespace, ns: Namespace, entries: seq<Entry>, p: Path)
    requires Spared(x, ns, entries) && p !in ns
    ensures Aside(x, entries, p)
  {
    forall j | 0 <= j < |entries|
      ensures entries[j].task.source in x ==> entries[j].task.source != p
      ensures entries[j].created ==> entries[j].task.dest != p
    {
      assert Placed(x, ns, entries[j]) && SourceKept(x, ns, entries[j].task);
    }
  }

  /** A change at another path spares them. */
  lemma SparedBeside(x: Namespace, ns: Namespace, ns': Namespace, entries: seq<Entry>, p: Path)
    requires Spared(x, ns, entries) && Aside(x, entries, p) && ns - {p} == ns' - {p}
    ensures Spared(x, ns', entries)
  {
    forall q | q in ns && q != p ensures q in ns' && ns'[q] == ns[q] {
      assert q in ns - {p} && q in ns' - {p};
      assert ns'[q] == (ns' - {p})[q] && ns[q] == (ns - {p})[q];
    }
    forall j | 0 <= j < |entries| ensures Placed(x, ns', entries[j]) && SourceKept(x, ns', entries[j].task) {
      assert Placed(x, ns, entries[j]) && SourceKept(x, ns, entries[j].task);
    }
  }

  lemma SparedMade(x: Namespace, ns: Namespace, entries: seq<Entry>, i: nat, node: Node)
    requires Spared(x, ns, entries) && i < |entries| && entries[i].task.dest !in ns
    requires RightKind(entries[i].task.kind, node.kind) && Carried(x, entries[i].task, node)
    ensures Spared(x, ns[entries[i].task.dest := node], entries[i := Made(entries[i], node.id)])
  {
    var ns', entries' := ns[entries[i].task.dest := node], entries[i := Made(entries[i], node.id)];
    forall j | 0 <= j < |entries| ensures Placed(x, ns', entries'[j]) && SourceKept(x, ns', entries'[j].task) {
      assert Placed(x, ns, entries[j]) && SourceKept(x, ns, entries[j].task);
    }
  }

  /** Moving what is at a destination out of the way spares them too. */
  lemma SparedMoved(x: Namespace, ns: Namespace, entries: seq<Entry>, i: nat, backup: Path)
    requires Spared(x, ns, entries) && Unmixed(entries) && i < |entries|
    requires forall j :: i <= j < |entries| ==> !entries[j].created
    requires Closed(ns) && CanMove(ns, entries[i].task.dest, backup)
    ensures Spared(x, Moved(ns, entries[i].task.dest, backup), entries)
  {
    var ns' := Moved(ns, entries[i].task.dest, backup);
    forall j | 0 <= j < |entries| ensures Placed(x, ns', entries[j]) && SourceKept(x, ns', entries[j].task) {
      assert Placed(x, ns, entries[j]) && SourceKept(x, ns, entries[j].task);
      if entries[j].task.source in ns { StaysPut(ns, entries[i].task.dest, backup, entries[j].task.source); }
      if entries[j].created { StaysPut(ns, entries[i].task.dest, backup, entries[j].task.dest); }
    }
  }

  lemma StaysPut(ns: Namespace, a: Path, b: Path, p: Path)
    requires Closed(ns) && CanMove(ns, a, b) && p in ns && !(a <= p)
    ensures p in Moved(ns, a, b) && Moved(ns, a, b)[p] == ns[p]
  {
    if b <= p { FreeMeansEmptyBelow(ns, b, p); }
    MovedAt(ns, a, b, p);
  }

  lemma SparedAlike(x: Namespace, ns: Namespace, a: seq<Entry>, b: seq<Entry>)
    requires Spared(x, ns, a) && |a| == |b|
    requires forall j :: 0 <= j < |a| ==>
      SameTask(a[j], b[j]) && b[j].created == a[j].created && b[j].objectId == a[j].objectId
    ensures Spared(x, ns, b)
  {
    forall j | 0 <= j < |b| ensures Placed(x, ns, b[j]) && SourceKept(x, ns, b[j].task) {
      assert SameTask(a[j], b[j]) && Placed(x, ns, a[j]) && SourceKept(x, ns, a[j].task);
    }
  }

  lemma UnmixedAlike(a: seq<Entry>, b: seq<Entry>)
    requires SameTasks(a, b)
    ensures Unmixed(a) == Unmixed(b)
  {
    forall j | 0 <= j < |a| ensures a[j].task == b[j].task { assert SameTask(a[j], b[j]); }
  }

  /** The file under way of a copy that replaces nothing. */
  ghost predicate Apart(x: Namespace, r: Record, i: nat, source: seq<bv8>) {
    && i < |r.entries| && r.tempPath !in x
    && (r.entries[i].task.source in x ==> source == x[r.entries[i].task.source].content)
    && (forall j :: 0 <= j < |r.entries| ==> r.entries[j].created ==> r.entries[j].task.dest != r.tempPath)
  }

  ghost predicate OnlyFiles(entries: seq<Entry>) {
    forall j :: 0 <= j < |entries| ==> entries[j].task.kind.File?
  }

  /** The state of an undisturbed copy that started from `x`. */
  ghost predicate Forward(claim: Claim, x: Namespace, w: World, r: Record, fileOpen: bool, stream: Stream) {
    var i := r.head.entryIndex;
    && FinishedUpTo(r.entries, i) && PristineFrom(r.entries, if fileOpen then i + 1 else i)
    && Suits(claim, x, w.ns, r)
    && (fileOpen ==> Filling(x, w, r, i, stream))
  }

  /** The file under way, with its bytes so far in the temporary object. */
  ghost predicate Filling(x: Namespace, w: World, r: Record, i: nat, stream: Stream) {
    && Copying(w.ns, r, i) && w.ns[r.tempPath].content == stream.output && w.saved == r
    && (!r.head.policy.ConflictReplace? ==> Apart(x, r, i, stream.source))
    && (Replacing(r) ==>
          && Aside(x, r.entries, r.tempPath)
          && (r.entries[i].task.source in x ==> stream.source == x[r.entries[i].task.source].content))
  }

  ghost predicate Replacing(r: Record) { r.head.policy.ConflictReplace? && Unmixed(r.entries) }

  /** Rollback stays exact, and a copy that replaces nothing leaves everything else alone. */
  ghost predicate Suits(claim: Claim, x: Namespace, ns: Namespace, r: Record) {
    && !claim.Strict? && (!claim.Loose? && r.head.policy.ConflictReplace? ==> OnlyFiles(r.entries))
    && (!r.head.policy.ConflictReplace? ==> Intact(x, ns, r.entries))
    && (Replacing(r) ==> Spared(x, ns, r.entries))
  }

  /** The counters and handles, whatever others do. */
  ghost predicate Running(r: Record, fileOpen: bool, stream: Stream) {
    var i := r.head.entryIndex;
    && r.head.operation.Copy? && i <= |r.entries| && FileBytes(r.entries, |r.entries|) <= U64_MAX
    && (forall j :: i <= j < |r.entries| ==> !r.entries[j].created)
    && (forall j :: 0 <= j < |r.entries| && r.entries[j].skip ==> r.head.policy.ConflictSkip?)
    && (if fileOpen then
          r.tempCreated && r.tempId.Valid() && Streaming(stream, r.entries, i) && !Skipped(r.entries, i)
        else !r.tempCreated && stream.completed == FileBytes(r.entries, i))
  }

  // When it gets on.

  const PATH_MAX: nat := 512

  /** What a link may name: neither empty nor too long for a path, and without zero bytes. */
  predicate TargetValid(target: seq<bv8>) { 0 < |target| < PATH_MAX && 0 !in target }

  /** The namespace lets the copy deal with entry `i`: its destination is taken and may be skipped, or it
      is free and the object can be made there. */
  predicate Allows(ns: Namespace, r: Record, i: nat, sequence: nat)
    requires i < |r.entries|
  {
    var task := r.entries[i].task;
    if task.dest in ns then r.head.policy.ConflictSkip?
    else
      && CanCreate(ns, task.dest)
      && match task.kind
         case File => CanOpen(ns, task, sequence)
         case Directory => true
         case Symlink => task.source in ns && TargetValid(ns[task.source].content)
         case Hardlink => CanLink(ns, r, i)
  }

  /** The same for a file that may replace what is there: that can be moved out of the way first. */
  predicate AllowsReplacing(ns: Namespace, e: Entry, sequence: nat, proposal: Proposal) {
    && e.task.kind.File?
    && if e.task.dest in ns
       then ProposalFits(ns, e, proposal) &&
            CanOpen(Moved(ns, e.task.dest, proposal(e.task.dest, ns[e.task.dest].id).value), e.task, sequence)
       else CanOpen(ns, e.task, sequence)
  }

  /** Nothing stands in the way of the next pump. */
  ghost predicate Able(op: Operation)
    reads op, op.backend
  {
    var i := op.r.head.entryIndex;
    && op.backend.reliable && op.capacity > 0 && !op.cancelRequested
    && (i < |op.r.entries| && !op.fileOpen && !Skipped(op.r.entries, i) ==>
          if op.r.head.policy.ConflictReplace?
          then AllowsReplacing(op.backend.w.ns, op.r.entries[i], op.tempSequence + 1, op.backend.proposal)
          else Allows(op.backend.w.ns, op.r, i, op.tempSequence + 1))
  }

  /** An upper bound for the pumps still to come: two an entry and one a byte. */
  ghost function Left(r: Record, fileOpen: bool, stream: Stream): int {
    var n, i := |r.entries|, r.head.entryIndex;
    var begun := i < n && (fileOpen || Skipped(r.entries, i));
    2 * (n - i) - (if begun then 1 else 0) + FileBytes(r.entries, n) - stream.completed
  }

  // How the steps keep it.

  lemma {:induction false} FileBytesSame(a: seq<Entry>, b: seq<Entry>, i: nat)
    requires i <= |a| == |b|
    requires forall j :: 0 <= j < |a| ==> a[j].task.kind == b[j].task.kind && a[j].task.size == b[j].task.size
    ensures FileBytes(a, i) == FileBytes(b, i)
  {
    if i != 0 { FileBytesSame(a, b, i - 1); }
  }

  /** Entry `i` is finished; only the index is still to move on. */
  ghost predicate EntryDone(claim: Claim, x: Namespace, ns: Namespace, r: Record) {
    var i := r.head.entryIndex;
    && i < |r.entries| && FinishedUpTo(r.entries, i + 1) && PristineFrom(r.entries, i + 1) && Suits(claim, x, ns, r)
  }

  lemma ForwardNext(claim: Claim, x: Namespace, w: World, r: Record, stream: Stream)
    requires EntryDone(claim, x, w.ns, r)
    ensures Forward(claim, x, w, WithHead(r, r.head.(entryIndex := r.head.entryIndex + 1)), false, stream)
  {
  }

  lemma IntactMade(x: Namespace, ns: Namespace, entries: seq<Entry>, i: nat, node: Node)
    requires Intact(x, ns, entries) && i < |entries| && !entries[i].created
    requires entries[i].task.dest !in ns
    requires RightKind(entries[i].task.kind, node.kind) && Carried(x, entries[i].task, node)
    requires entries[i].task.kind.Hardlink? ==>
      var k := entries[i].task.linkSource;
      k < i && entries[k].created && entries[k].task.dest in ns && node == ns[entries[k].task.dest]
    ensures Intact(x, ns[entries[i].task.dest := node], entries[i := Made(entries[i], node.id)])
  {
    var ns', entries' := ns[entries[i].task.dest := node], entries[i := Made(entries[i], node.id)];
    forall j | 0 <= j < |entries'| ensures Placed(x, ns', entries'[j]) && entries'[j].replacement.NotReplacing? {
      assert Placed(x, ns, entries[j]);
    }
    TakenStays(x, entries, entries');
    forall j | 0 <= j < |entries'| && entries'[j].skip ensures Taken(x, entries', j) {
      assert Taken(x, entries, j);
    }
    forall j | 0 <= j < |entries'| ensures Shares(ns', entries', j) {
      assert Shares(ns, entries, j);
    }
  }

  /** Losing the temporary object touches nothing the copy vouches for. */
  lemma IntactWithout(x: Namespace, ns: Namespace, entries: seq<Entry>, temp: Path)
    requires Intact(x, ns, entries) && temp !in x
    requires forall j :: 0 <= j < |entries| ==> entries[j].created ==> entries[j].task.dest != temp
    ensures Intact(x, ns - {temp}, entries)
  {
    forall j | 0 <= j < |entries| ensures Placed(x, ns - {temp}, entries[j]) && Shares(ns - {temp}, entries, j) {
      assert Placed(x, ns, entries[j]) && Shares(ns, entries, j);
    }
  }

  lemma IntactWith(x: Namespace, ns: Namespace, entries: seq<Entry>, temp: Path, node: Node)
    requires Intact(x, ns, entries) && temp !in ns
    ensures Intact(x, ns[temp := node], entries)
    ensures forall j :: 0 <= j < |entries| ==> entries[j].created ==> entries[j].task.dest != temp
  {
    forall j | 0 <= j < |entries|
      ensures Placed(x, ns[temp := node], entries[j]) && (entries[j].created ==> entries[j].task.dest != temp)
      ensures Shares(ns[temp := node], entries, j)
    {
      assert Placed(x, ns, entries[j]) && Shares(ns, entries, j);
    }
  }

  lemma IntactWritten(x: Namespace, ns: Namespace, entries: seq<Entry>, temp: Path, content: seq<bv8>)
    requires Intact(x, ns, entries) && temp !in x && temp in ns
    requires forall j :: 0 <= j < |entries| ==> entries[j].created ==> entries[j].task.dest != temp
    ensures Intact(x, ns[temp := ns[temp].(content := content)], entries)
  {
    var ns' := ns[temp := ns[temp].(content := content)];
    forall j | 0 <= j < |entries| ensures Placed(x, ns', entries[j]) && Shares(ns', entries, j) {
      assert Placed(x, ns, entries[j]) && Shares(ns, entries, j);
    }
  }

  // One pump, in parts. A part stays at the entry, has finished it, or fell into a failure.

  datatype Turn = Stay | Advance | Fell(result: Result)

  /** What a part promises about a tracked run. */
  ghost predicate Kept(x: Option<Namespace>, claim: Claim, quiet: bool, w: World, r: Record, fileOpen: bool,
                       stream: Stream, turn: Turn) {
    x.Some? ==>
      && (turn.Stay? ==> Follows(quiet, claim, x, w, r) && Forward(claim, x.value, w, r, fileOpen, stream))
      && (turn.Advance? ==> Follows(quiet, claim, x, w, r) && EntryDone(claim, x.value, w.ns, r))
      && (turn.Fell? && !claim.Loose? ==> Stands(quiet, claim, x, w, r))
  }

  /** What it promises of any run. */
  ghost predicate Goes(r: Record, fileOpen: bool, stream: Stream, turn: Turn) {
    && r.head.operation.Copy?
    && (turn.Stay? ==> Running(r, fileOpen, stream))
    && (turn.Advance? ==> !fileOpen && Passes(r, stream))
  }

  /** The counters are right for the next entry. */
  ghost predicate Passes(r: Record, stream: Stream) {
    r.head.entryIndex < |r.entries| &&
    Running(WithHead(r, r.head.(entryIndex := r.head.entryIndex + 1)), false, stream)
  }

  lemma PassesOn(r0: Record, r: Record, stream: Stream)
    requires r.head == r0.head && r.head.operation.Copy? && r.head.entryIndex < |r.entries| == |r0.entries|
    requires forall j :: r.head.entryIndex <= j < |r0.entries| ==> !r0.entries[j].created
    requires FileBytes(r0.entries, |r0.entries|) <= U64_MAX
    requires r.entries == r0.entries[r.head.entryIndex := r.entries[r.head.entryIndex]]
    requires SameTask(r0.entries[r.head.entryIndex], r.entries[r.head.entryIndex])
    requires forall j :: 0 <= j < |r0.entries| && r0.entries[j].skip ==> r.head.policy.ConflictSkip?
    requires r.entries[r.head.entryIndex].skip ==> r.head.policy.ConflictSkip?
    requires !r.tempCreated && stream.completed == FileBytes(r0.entries, r.head.entryIndex + 1)
    ensures Passes(r, stream)
  {
    FileBytesSame(r0.entries, r.entries, |r.entries|);
    FileBytesSame(r0.entries, r.entries, r.head.entryIndex + 1);
  }

  /** The destination of the current entry holds every byte of the source it was opened on. */
  predicate Published(ns: Namespace, r: Record, stream: Stream) {
    && r.head.entryIndex < |r.entries| && r.entries[r.head.entryIndex].task.dest in ns
    && ns[r.entries[r.head.entryIndex].task.dest].content == stream.source
  }

  lemma OpenEntry(r: Record, stream: Stream)
    requires Running(r, true, stream)
    ensures r.head.entryIndex < |r.entries| && !r.entries[r.head.entryIndex].skip
  {
  }

  lemma OpenFile(claim: Claim, x: Namespace, w: World, r: Record, stream: Stream)
    requires Forward(claim, x, w, r, true, stream)
    ensures Copying(w.ns, r, r.head.entryIndex) && r.tempPath in w.ns && w.ns[r.tempPath].content == stream.output
    ensures r.head.entryIndex < |r.entries| && r.entries[r.head.entryIndex].task.dest !in w.ns
    ensures r.tempPath != r.entries[r.head.entryIndex].task.dest
    ensures Closed(w.ns) ==> CanCreate(w.ns, r.entries[r.head.entryIndex].task.dest)
  {
    if Closed(w.ns) && [] !in w.ns { FreeMeansEmptyBelow(w.ns, [], r.tempPath); }
  }

  /** The whole file is in the temporary object: publish it. */
  method PumpFinish(op: Operation, ghost x: Option<Namespace>) returns (turn: Turn)
    requires op.Well() && Running(op.r, op.fileOpen, op.stream) && op.fileOpen
    requires op.stream.output == op.stream.source
    requires op.stream.completed == FileBytes(op.r.entries, op.r.head.entryIndex + 1)
    requires Follows(op.backend.quiet, op.claim, x, op.backend.w, op.r)
    requires x.Some? ==> Forward(op.claim, x.value, op.backend.w, op.r, op.fileOpen, op.stream)
    modifies op`r, op`sourceHandle, op`tempHandle, op`fileOpen, op.backend`w
    ensures op.Well() && op.r.head == old(op.r.head) && SameTasks(old(op.r.entries), op.r.entries)
    ensures Goes(op.r, op.fileOpen, op.stream, turn) && !turn.Stay?
    ensures Kept(x, op.claim, op.backend.quiet, op.backend.w, op.r, op.fileOpen, op.stream, turn)
    ensures x.Some? && turn.Advance? ==> Published(op.backend.w.ns, op.r, op.stream)
    ensures x.Some? && op.backend.reliable ==> turn.Advance?
    ensures x.Some? && !turn.Fell? ==> KeepsBacked(op.backend.proposal, old(op.r.entries), op.r.entries)
  {
    hide Recover, AllGood, Sound, Forward, EntryDone, Restorable, AllRoll, Copying, Streaming, FileBytes, Passes;
    hide CanCreate, Closed;
    var i := op.r.head.entryIndex;
    ghost var r0, w0 := op.r, op.backend.w;
    SoundClosed(op.backend.w, op.r);
    OpenEntry(op.r, op.stream);
    if x.Some? { OpenFile(op.claim, x.value, op.backend.w, op.r, op.stream); }
    var res := FinishCopy(op, i, x);
    turn := if res == OK then Advance else Fell(res);
    if res == OK { PassesOn(r0, op.r, op.stream); }
    if x.Some? && res == OK { BackedUpdate(op.backend.proposal, r0.entries, op.r.entries, i); }
    if x.Some? && res == OK { FinishedCopy(op.claim, x.value, w0, r0, op.backend.w.ns, op.r, op.stream); }
  }

  lemma SoundClosed(w: World, r: Record)
    requires Sound(w, r)
    ensures Closed(w.ns)
  {
  }

  /** A published file is a finished entry. */
  lemma FinishedCopy(claim: Claim, x: Namespace, w0: World, r0: Record, ns: Namespace, r: Record, stream: Stream)
    requires Forward(claim, x, w0, r0, true, stream) && stream.output == stream.source && Restorable(r) && AllRoll(r)
    requires r.head == r0.head && r.head.entryIndex < |r0.entries| && r.head.operation.Copy?
    requires !r0.entries[r.head.entryIndex].skip
    requires r.entries == r0.entries[r.head.entryIndex := Made(r0.entries[r.head.entryIndex], r0.tempId)]
    requires r0.tempPath in w0.ns
    requires ns == w0.ns[r0.entries[r.head.entryIndex].task.dest := w0.ns[r0.tempPath]] - {r0.tempPath}
    ensures EntryDone(claim, x, ns, r)
  {
    var i := r.head.entryIndex;
    var dest, node := r0.entries[i].task.dest, w0.ns[r0.tempPath];
    assert RollsExactly(r.head.operation, r.entries[i]) && SavableEntry(r.entries[i]);
    assert r.entries[..i] == r0.entries[..i];
    SkippedPrefix(r0.entries, r.entries, i);
    if !r.head.policy.ConflictReplace? {
      IntactMade(x, w0.ns, r0.entries, i, node);
      IntactWithout(x, w0.ns[dest := node], r.entries, r0.tempPath);
    }
    UnmixedAlike(r0.entries, r.entries);
    if Replacing(r) {
      assert Replacing(r0);
      PublishedSpares(x, w0.ns, r0, r.entries);
    }
  }

  lemma PublishedSpares(x: Namespace, ns: Namespace, r: Record, entries: seq<Entry>)
    requires Spared(x, ns, r.entries) && Aside(x, r.entries, r.tempPath) && Copying(ns, r, r.head.entryIndex)
    requires entries == r.entries[r.head.entryIndex := Made(r.entries[r.head.entryIndex], r.tempId)]
    requires
      var task := r.entries[r.head.entryIndex].task;
      task.source in x ==> ns[r.tempPath].content == x[task.source].content
    ensures Spared(x, ns[r.entries[r.head.entryIndex].task.dest := ns[r.tempPath]] - {r.tempPath}, entries)
  {
    var i := r.head.entryIndex;
    var dest, node := r.entries[i].task.dest, ns[r.tempPath];
    SparedMade(x, ns, r.entries, i, node);
    assert Aside(x, entries, r.tempPath);
    SparedBeside(x, ns[dest := node], ns[dest := node] - {r.tempPath}, entries, r.tempPath);
  }

  /** One pump of the open file: a hole and a buffer's worth of bytes, or the end of the file. */
  method PumpData(op: Operation, ghost x: Option<Namespace>) returns (turn: Turn)
    requires op.Well() && Running(op.r, op.fileOpen, op.stream) && op.fileOpen
    requires Follows(op.backend.quiet, op.claim, x, op.backend.w, op.r)
    requires x.Some? ==> Forward(op.claim, x.value, op.backend.w, op.r, op.fileOpen, op.stream)
    modifies op`r, op`sourceHandle, op`tempHandle, op`fileOpen, op`stream, op.backend`w
    ensures op.Well() && op.r.head == old(op.r.head) && SameTasks(old(op.r.entries), op.r.entries)
    ensures Goes(op.r, op.fileOpen, op.stream, turn)
    ensures Kept(x, op.claim, op.backend.quiet, op.backend.w, op.r, op.fileOpen, op.stream, turn)
    ensures op.stream.source == old(op.stream.source)
    ensures x.Some? && turn.Advance? ==> Published(op.backend.w.ns, op.r, op.stream)
    ensures x.Some? && op.backend.reliable && op.capacity > 0 ==> !turn.Fell?
    ensures turn.Stay? ==> op.fileOpen && op.r == old(op.r) && old(op.stream.completed) < op.stream.completed
    ensures !turn.Fell? ==> old(op.stream.completed) <= op.stream.completed
    ensures x.Some? && !turn.Fell? ==> KeepsBacked(op.backend.proposal, old(op.r.entries), op.r.entries)
  {
    var outcome, next, writes := Step(
      op.stream, op.r.entries, op.r.head.entryIndex, op.capacity, op.backend.reliable);
    ghost var w0, s0 := op.backend.w, op.stream;
    hide SameTasks, Recover, AllGood, Sound, Streaming;
    StoreWrites(op, writes, x);
    if outcome.Broken? {
      turn := Fell(IoFailed);
    } else {
      op.stream := next;
      if x.Some? { ForwardWritten(op.claim, x.value, w0, op.r, s0, op.backend.w, op.stream); }
      if outcome.Whole? {
        turn := PumpFinish(op, x);
      } else {
        turn := Stay;
      }
    }
  }

  lemma ForwardWritten(claim: Claim, x: Namespace, w0: World, r: Record, s0: Stream, w: World, s: Stream)
    requires Forward(claim, x, w0, r, true, s0) && s.source == s0.source && w.saved == r
    requires TempStands(w0.ns, r) && TempStands(w.ns, r)
    requires w.ns == w0.ns[r.tempPath := w0.ns[r.tempPath].(content := s.output)]
    ensures Forward(claim, x, w, r, true, s)
  {
    if !r.head.policy.ConflictReplace? { IntactWritten(x, w0.ns, r.entries, r.tempPath, s.output); }
    if Replacing(r) { SparedBeside(x, w0.ns, w.ns, r.entries, r.tempPath); }
  }

  // Beginning an entry.

  /** The destination of the entry is free; nothing of the entry exists yet. */
  ghost predicate ReadyEntry(claim: Claim, x: Namespace, ns: Namespace, r: Record) {
    var i := r.head.entryIndex;
    && i < |r.entries| && FinishedUpTo(r.entries, i) && PristineFrom(r.entries, i + 1) && Suits(claim, x, ns, r)
    && Underway(r.entries[i]) && r.entries[i].objectId == NO_IDENTITY && r.entries[i].task.dest !in ns
    && !r.tempCreated && !r.entries[i].skip
  }

  lemma ForwardOpened(claim: Claim, x: Namespace, w0: World, r0: Record, w: World, r: Record, stream: Stream)
    requires ReadyEntry(claim, x, w0.ns, r0) && r.head == r0.head && r.entries == r0.entries
    requires r.entries[r.head.entryIndex].task.kind.File? && TempStands(w.ns, r) && w.saved == r
    requires r.tempPath !in w0.ns && !(r.tempPath <= r.entries[r.head.entryIndex].task.dest) && r.tempPath != []
    requires r.entries[r.head.entryIndex].task.dest != [] ==>
      Parent(r.tempPath) == Parent(r.entries[r.head.entryIndex].task.dest)
    requires w.ns == w0.ns[r.tempPath := w.ns[r.tempPath]] && w.ns[r.tempPath].content == stream.output
    requires r.entries[r.head.entryIndex].task.source in w0.ns
    requires stream.source == w0.ns[r.entries[r.head.entryIndex].task.source].content
    ensures Forward(claim, x, w, r, true, stream)
  {
    if !r.head.policy.ConflictReplace? { IntactWith(x, w0.ns, r.entries, r.tempPath, w.ns[r.tempPath]); }
    if Replacing(r) {
      FreeIsAside(x, w0.ns, r.entries, r.tempPath);
      SparedBeside(x, w0.ns, w.ns, r.entries, r.tempPath);
      assert SourceKept(x, w0.ns, r.entries[r.head.entryIndex].task);
    }
  }

  /** Opens the file of the entry and starts copying. */
  method PumpFile(op: Operation, ghost x: Option<Namespace>) returns (turn: Turn)
    requires op.Well() && Running(op.r, op.fileOpen, op.stream) && !op.fileOpen
    requires op.r.head.entryIndex < |op.r.entries| && op.r.entries[op.r.head.entryIndex].task.kind.File?
    requires !Skipped(op.r.entries, op.r.head.entryIndex)
    requires Follows(op.backend.quiet, op.claim, x, op.backend.w, op.r)
    requires x.Some? ==> ReadyEntry(op.claim, x.value, op.backend.w.ns, op.r)
    modifies op`r, op`sourceHandle, op`tempHandle, op`fileOpen, op`tempSequence, op`stream, op.backend`w
    ensures op.Well() && op.r.head == old(op.r.head) && SameTasks(old(op.r.entries), op.r.entries)
    ensures Goes(op.r, op.fileOpen, op.stream, turn)
    ensures Kept(x, op.claim, op.backend.quiet, op.backend.w, op.r, op.fileOpen, op.stream, turn)
    ensures (x.Some? && op.backend.reliable && op.capacity > 0 &&
             old(CanOpen(op.backend.w.ns, op.r.entries[op.r.head.entryIndex].task, op.tempSequence + 1))) ==>
      !turn.Fell?
    ensures turn.Stay? ==> op.fileOpen && op.r.entries == old(op.r.entries)
    ensures !turn.Fell? ==> old(op.stream.completed) <= op.stream.completed
    ensures x.Some? && !turn.Fell? ==> KeepsBacked(op.backend.proposal, old(op.r.entries), op.r.entries)
  {
    var i := op.r.head.entryIndex;
    ghost var r0, w0 := op.r, op.backend.w;
    hide SameTasks, Recover, AllGood, Sound, Forward, TempStands, CanOpen;
    var res := OpenCopy(op, i, x);
    if res != InProgress {
      turn := Fell(res);
    } else {
      if x.Some? { ForwardOpened(op.claim, x.value, w0, r0, op.backend.w, op.r, op.stream); }
      turn := PumpData(op, x);
    }
  }

  /** The node is what entry `i` calls for: a directory, a symbolic link with the target of its source, or the
      node of the entry it links to. */
  predicate MadeOf(ns: Namespace, r: Record, i: nat, node: Node)
    requires i < |r.entries|
  {
    var task := r.entries[i].task;
    && RightKind(task.kind, node.kind)
    && (task.kind.Symlink? ==> task.source in ns && node.content == ns[task.source].content)
    && (task.kind.Hardlink? ==> LinksTo(ns, r, i, node))
  }

  /** An object created in place is a finished entry, and undoing it gives back what was there. */
  lemma MadeInPlace(claim: Claim, x: Namespace, ns0: Namespace, r0: Record, ns: Namespace, r: Record)
    requires Closed(ns0) && ReadyEntry(claim, x, ns0, r0) && r0.head.operation.Copy? && Restorable(r0) && AllRoll(r0)
    requires !r0.entries[r0.head.entryIndex].task.kind.File?
    requires r.head == r0.head
    requires
      var i := r0.head.entryIndex;
      var e := r0.entries[i];
      && CanCreate(ns0, e.task.dest) && e.task.dest in ns && ns == ns0[e.task.dest := ns[e.task.dest]]
      && MadeOf(ns0, r0, i, ns[e.task.dest]) && ns[e.task.dest].id.Valid() && ns[e.task.dest].id.HasToken()
      && r == WithEntry(r0, i, Made(e, ns[e.task.dest].id))
    ensures EntryDone(claim, x, ns, r) && Recover(ns, r) == Recover(ns0, r0) && Restorable(r) && AllRoll(r)
  {
    var i := r0.head.entryIndex;
    var node := ns[r0.entries[i].task.dest];
    assert EntryOnTop(r0, i);
    MadeRecord(ns0, r0, i, node);
    assert r.entries[..i] == r0.entries[..i];
    SkippedPrefix(r0.entries, r.entries, i);
    if !r.head.policy.ConflictReplace? { LinkIsMade(claim, x, ns0, r0, node); IntactMade(x, ns0, r0.entries, i, node); }
    UnmixedAlike(r0.entries, r.entries);
    if Replacing(r) {
      assert Replacing(r0) && SourceKept(x, ns0, r0.entries[i].task);
      SparedMade(x, ns0, r0.entries, i, node);
    }
    hide SameTasks, Recover, Restorable, AllRoll, Closed;
  }

  lemma LinkIsMade(claim: Claim, x: Namespace, ns: Namespace, r: Record, node: Node)
    requires ReadyEntry(claim, x, ns, r) && !r.head.policy.ConflictReplace? && MadeOf(ns, r, r.head.entryIndex, node)
    requires !r.entries[r.head.entryIndex].task.kind.File?
    ensures Carried(x, r.entries[r.head.entryIndex].task, node)
    ensures r.entries[r.head.entryIndex].task.kind.Hardlink? ==>
      r.entries[r.entries[r.head.entryIndex].task.linkSource].created
  {
    ReadyToMakeLink(claim, x, ns, r);
  }

  /** The directory, symbolic link or hard link of the current entry can be made. */
  predicate CanMake(ns: Namespace, r: Record) {
    var i := r.head.entryIndex;
    && i < |r.entries| && r.entries[i].task.dest !in ns && !r.entries[i].task.kind.File? && Allows(ns, r, i, 0)
  }

  /** Creates the directory, symbolic link or hard link of the entry. */
  method MakeInPlace(op: Operation, ghost x: Option<Namespace>) returns (res: Result)
    requires op.Well() && Running(op.r, op.fileOpen, op.stream) && !op.fileOpen
    requires op.r.head.entryIndex < |op.r.entries| && !op.r.entries[op.r.head.entryIndex].task.kind.File?
    requires Follows(op.backend.quiet, op.claim, x, op.backend.w, op.r)
    requires x.Some? ==> ReadyEntry(op.claim, x.value, op.backend.w.ns, op.r) && !op.r.head.policy.ConflictReplace?
    modifies op`r, op.backend`w
    ensures op.Well() && op.r.head == old(op.r.head) && SameTasks(old(op.r.entries), op.r.entries)
    ensures Follows(op.backend.quiet, op.claim, x, op.backend.w, op.r)
    ensures |op.r.entries| == |old(op.r.entries)| && op.r.tempCreated == old(op.r.tempCreated)
    ensures
      var i := op.r.head.entryIndex;
      && op.r.entries == old(op.r.entries)[i := op.r.entries[i]] && SameTask(old(op.r.entries[i]), op.r.entries[i])
      && op.r.entries[i].skip == old(op.r.entries[i]).skip
      && (op.backend.quiet && res == OK ==>
            && op.r == WithEntry(old(op.r), i, Made(old(op.r.entries[i]), op.r.entries[i].objectId))
            && CanCreate(old(op.backend.w.ns), op.r.entries[i].task.dest) &&
                 op.r.entries[i].task.dest in op.backend.w.ns
            && op.backend.w.ns ==
                 old(op.backend.w.ns)[op.r.entries[i].task.dest := op.backend.w.ns[op.r.entries[i].task.dest]]
            && MadeOf(old(op.backend.w.ns), old(op.r), i, op.backend.w.ns[op.r.entries[i].task.dest])
            && op.backend.w.ns[op.r.entries[i].task.dest].id == op.r.entries[i].objectId)
    ensures x.Some? && op.backend.reliable && old(CanMake(op.backend.w.ns, op.r)) ==> res == OK
  {
    hide Recover, AllGood, Sound, ReadyEntry, ReadyToMake, LinkIntact, CanCreate, Restorable, AllRoll, Skipped;
    var i := op.r.head.entryIndex;
    var e := op.r.entries[i];
    if x.Some? { ReadyToMakeLink(op.claim, x.value, op.backend.w.ns, op.r); }
    match e.task.kind
    case Directory =>
      res := MakeMarked(op, i, DirectoryNode, [], x);
    case Symlink =>
      var status, target := op.Load(e.task.source);
      if status != Ok || !TargetValid(target) {
        res := if status == Ok then IoFailed else ResultOf(status);
      } else {
        res := MakeMarked(op, i, SymlinkNode, target, x);
      }
    case Hardlink =>
      res := MakeLink(op, i, x);
  }

  lemma ReadyToMakeLink(claim: Claim, x: Namespace, ns: Namespace, r: Record)
    requires ReadyEntry(claim, x, ns, r) && !r.head.policy.ConflictReplace?
    ensures r.head.entryIndex < |r.entries| && r.entries[r.head.entryIndex].replacement.NotReplacing?
    ensures ReadyToMake(claim, ns, r, r.head.entryIndex) && LinkIntact(ns, r, r.head.entryIndex)
    ensures forall k :: 0 <= k < r.head.entryIndex ==> r.entries[k].objectId.HasToken() ==> r.entries[k].created
  {
    var k := r.entries[r.head.entryIndex].task.linkSource;
    assert k < |r.entries| ==> Placed(x, ns, r.entries[k]);
  }

  /** Creates the object of the entry in place and syncs it. */
  method PumpInPlace(op: Operation, ghost x: Option<Namespace>) returns (turn: Turn)
    requires op.Well() && Running(op.r, op.fileOpen, op.stream) && !op.fileOpen
    requires op.r.head.entryIndex < |op.r.entries| && !op.r.entries[op.r.head.entryIndex].task.kind.File?
    requires Follows(op.backend.quiet, op.claim, x, op.backend.w, op.r)
    requires x.Some? ==> ReadyEntry(op.claim, x.value, op.backend.w.ns, op.r)
    modifies op`r, op.backend`w
    ensures op.Well() && op.r.head == old(op.r.head) && SameTasks(old(op.r.entries), op.r.entries)
    ensures Goes(op.r, op.fileOpen, op.stream, turn) && !turn.Stay?
    ensures Kept(x, op.claim, op.backend.quiet, op.backend.w, op.r, op.fileOpen, op.stream, turn)
    ensures (x.Some? && op.backend.reliable && !op.r.head.policy.ConflictReplace? &&
             old(CanMake(op.backend.w.ns, op.r))) ==> turn.Advance?
    ensures x.Some? && !turn.Fell? ==> KeepsBacked(op.backend.proposal, old(op.r.entries), op.r.entries)
  {
    hide Recover, Good, ReadyEntry, CanCreate, Closed, Sound, EntryDone, Restorable, AllRoll, CanMake;
    ghost var r0, w0 := op.r, op.backend.w;
    ghost var y := if op.r.head.policy.ConflictReplace? then None else x;
    InPlaceReady(op.claim, x, op.backend.w, op.r);
    var res := MakeInPlace(op, y);
    if res != OK {
      turn := Fell(res);
    } else {
      OwnsEntry(op.backend.w, op.r, r0.head.entryIndex);
      if x.Some? { MadeInPlace(op.claim, x.value, w0.ns, r0, op.backend.w.ns, op.r); }
      PassesOn(r0, op.r, op.stream);
      if x.Some? { BackedUpdate(op.backend.proposal, r0.entries, op.r.entries, r0.head.entryIndex); }
      var status := op.Touch();
      if status == Ok { status := op.Touch(); }
      turn := if status == Ok then Advance else Fell(ResultOf(status));
    }
  }

  lemma InPlaceReady(claim: Claim, x: Option<Namespace>, w: World, r: Record)
    requires Sound(w, r) && r.head.operation.Copy? && r.head.entryIndex < |r.entries|
    requires !r.entries[r.head.entryIndex].task.kind.File?
    requires x.Some? ==> ReadyEntry(claim, x.value, w.ns, r)
    ensures Closed(w.ns) && Restorable(r)
    ensures x.Some? && !claim.Loose? ==> !r.head.policy.ConflictReplace?
  {
  }

  /** Resolving the conflict leaves the entry skipped or ready. */
  lemma AfterConflict(claim: Claim, x: Namespace, w0: World, r0: Record, w: World, r: Record, stream: Stream)
    requires Forward(claim, x, w0, r0, false, stream) && r0.head.entryIndex < |r0.entries| && !r0.tempCreated
    requires r.head == r0.head
    requires !r.head.policy.ConflictReplace? && r0.entries[r0.head.entryIndex].task.dest in w.ns ==>
      Taken(x, r0.entries, r0.head.entryIndex)
    requires
      var i := r0.head.entryIndex;
      && r == WithEntry(r0, i, if i < |r.entries| then r.entries[i] else r0.entries[i])
      && SameButConflict(r0.entries[i], r.entries[i]) && !Skipped(r0.entries, i)
      && (!r.entries[i].skip ==> Underway(r.entries[i]) && r.entries[i].task.dest !in w.ns)
      && (r.entries[i].skip ==> r.entries[i] == r0.entries[i].(skip := true) && r.entries[i].task.dest in w.ns)
      && (!r.head.policy.ConflictReplace? ==>
            r.entries[i] == r0.entries[i].(skip := r.entries[i].skip) && w.ns == w0.ns)
      && (r.head.policy.ConflictReplace? ==>
            if r.entries[i].task.dest in w0.ns then Closed(w0.ns) && MovedAway(w0.ns, r.entries[i], w.ns)
            else w.ns == w0.ns)
    ensures Skipped(r.entries, r.head.entryIndex) <==> r.entries[r.head.entryIndex].skip
    ensures Skipped(r.entries, r.head.entryIndex) ==> Forward(claim, x, w, r, false, stream)
    ensures !Skipped(r.entries, r.head.entryIndex) ==> ReadyEntry(claim, x, w.ns, r)
  {
    var i := r0.head.entryIndex;
    if !r.head.policy.ConflictReplace? { IntactSkip(x, w.ns, r0.entries, i, r.entries[i].skip); }
    UnmixedAlike(r0.entries, r.entries);
    if Replacing(r) {
      assert Replacing(r0);
      if r.entries[i].task.dest in w0.ns { SparedMoved(x, w0.ns, r0.entries, i, r.entries[i].backup); }
      SparedAlike(x, w.ns, r0.entries, r.entries);
    }
    assert forall k :: 0 <= k < i ==> r.entries[k] == r0.entries[k];
  }

  lemma IntactSkip(x: Namespace, ns: Namespace, entries: seq<Entry>, i: nat, skip: bool)
    requires Intact(x, ns, entries) && i < |entries| && (skip ==> Taken(x, entries, i))
    ensures Intact(x, ns, entries[i := entries[i].(skip := skip)])
  {
    var entries' := entries[i := entries[i].(skip := skip)];
    forall j | 0 <= j < |entries'| ensures Placed(x, ns, entries'[j]) && Shares(ns, entries', j) {
      assert Placed(x, ns, entries[j]) && Shares(ns, entries, j);
    }
    TakenStays(x, entries, entries');
    forall j | 0 <= j < |entries'| && entries'[j].skip ensures Taken(x, entries', j) {
      assert Taken(x, entries, j);
    }
  }

  /** A destination that is found occupied was taken. */
  lemma FoundTaken(claim: Claim, x: Namespace, w: World, r: Record, stream: Stream)
    requires Forward(claim, x, w, r, false, stream) && Recover(w.ns, r) == Some(x) && !r.tempCreated
    requires r.head.entryIndex < |r.entries| && !r.head.policy.ConflictReplace?
    requires r.entries[r.head.entryIndex].task.dest in w.ns
    ensures Taken(x, r.entries, r.head.entryIndex)
  {
    var i, n := r.head.entryIndex, |r.entries|;
    var p := r.entries[i].task.dest;
    UndoneDestinations(w.ns, r.entries, n, x);
    assert r.entries[..n] == r.entries;
    if p !in x {
      var j :| 0 <= j < n && r.entries[j].created && r.entries[j].task.dest == p;
      assert j < i && r.entries[..i][j] == r.entries[j];
    }
  }

  lemma RunningConflict(r0: Record, r: Record, stream: Stream)
    requires Running(r0, false, stream) && r0.head.entryIndex < |r0.entries| && r.head == r0.head
    requires
      var i := r0.head.entryIndex;
      && |r.entries| == |r0.entries| && r == WithEntry(r0, i, r.entries[i])
      && SameButConflict(r0.entries[i], r.entries[i])
      && (r.entries[i].skip && !r0.entries[i].skip ==> r.head.policy.ConflictSkip?)
    ensures Running(r, false, stream)
  {
    FileBytesSame(r0.entries, r.entries, |r.entries|);
    FileBytesSame(r0.entries, r.entries, r.head.entryIndex);
  }

  lemma HeadOnTop(claim: Claim, x: Namespace, w: World, r: Record, stream: Stream)
    requires Forward(claim, x, w, r, false, stream) && Running(r, false, stream) && r.head.entryIndex < |r.entries|
    ensures EntryOnTop(r, r.head.entryIndex) && Pristine(r.entries[r.head.entryIndex])
  {
  }

  lemma IsCopy(r: Record, fileOpen: bool, stream: Stream)
    requires Running(r, fileOpen, stream)
    ensures r.head.operation.Copy? && (!fileOpen ==> !r.tempCreated)
  {
  }

  /** What the namespace allows does not depend on the skip mark. */
  lemma AllowedAfter(ns: Namespace, r0: Record, r: Record, sequence: nat)
    requires r0.head.entryIndex < |r0.entries| == |r.entries| && r.head == r0.head
    requires
      var i := r0.head.entryIndex;
      r == WithEntry(r0, i, r.entries[i]) && SameButConflict(r0.entries[i], r.entries[i])
    ensures
      var i := r0.head.entryIndex;
      Allows(ns, r0, i, sequence) && r0.entries[i].task.dest !in ns ==>
        if r.entries[i].task.kind.File? then CanOpen(ns, r.entries[i].task, sequence) else CanMake(ns, r)
  {
  }

  /** Resolves the conflict at the destination and starts the entry. */
  method BeginEntry(op: Operation, ghost x: Option<Namespace>) returns (turn: Turn)
    requires op.Well() && Running(op.r, op.fileOpen, op.stream) && !op.fileOpen
    requires op.r.head.entryIndex < |op.r.entries| && !Skipped(op.r.entries, op.r.head.entryIndex)
    requires Follows(op.backend.quiet, op.claim, x, op.backend.w, op.r)
    requires x.Some? ==> Forward(op.claim, x.value, op.backend.w, op.r, op.fileOpen, op.stream)
    modifies op`r, op`sourceHandle, op`tempHandle, op`fileOpen, op`tempSequence, op`stream, op.backend`w
    ensures op.Well() && op.r.head == old(op.r.head) && SameTasks(old(op.r.entries), op.r.entries)
    ensures Goes(op.r, op.fileOpen, op.stream, turn)
    ensures Kept(x, op.claim, op.backend.quiet, op.backend.w, op.r, op.fileOpen, op.stream, turn)
    ensures x.Some? && old(Able(op)) ==> !turn.Fell?
    ensures turn.Stay? ==> op.fileOpen || Skipped(op.r.entries, op.r.head.entryIndex)
    ensures !turn.Fell? ==> old(op.stream.completed) <= op.stream.completed
    ensures x.Some? && !turn.Fell? ==> KeepsBacked(op.backend.proposal, old(op.r.entries), op.r.entries)
  {
    hide Recover, AllGood, Sound, Forward, EntryOnTop, Running, ReadyEntry, CanOpen, CanMake, Moved, CanMove,
      KeepsBacked, Closed;
    var i := op.r.head.entryIndex;
    ghost var r0, w0 := op.r, op.backend.w;
    if x.Some? {
      HeadOnTop(op.claim, x.value, op.backend.w, op.r, op.stream);
      SoundClosed(op.backend.w, op.r);
      if op.r.entries[i].task.dest in w0.ns && !op.r.head.policy.ConflictReplace? && !op.r.tempCreated {
        FoundTaken(op.claim, x.value, op.backend.w, op.r, op.stream);
      }
    }
    IsCopy(op.r, op.fileOpen, op.stream);
    var res := Conflict(op, i, x);
    RunningConflict(r0, op.r, op.stream);
    if res != OK {
      turn := Fell(res);
    } else {
      if x.Some? { AfterConflict(op.claim, x.value, w0, r0, op.backend.w, op.r, op.stream); }
      AllowedAfter(w0.ns, r0, op.r, op.tempSequence + 1);
      BackedUpdate(op.backend.proposal, r0.entries, op.r.entries, i);
      ghost var r1 := op.r;
      if Skipped(op.r.entries, i) {
        turn := Stay;
      } else if op.r.entries[i].task.kind.File? {
        turn := PumpFile(op, x);
      } else {
        turn := PumpInPlace(op, x);
      }
      if x.Some? && !turn.Fell? {
        BackedSame(op.backend.proposal, r1.entries);
        BackedThrough(op.backend.proposal, r0.entries, r1.entries, op.r.entries);
      }
    }
  }

  // The pump.

  /** How a run that gave up stands: rolling back (1), asking for recovery (-1), or rolled back (0). */
  ghost predicate Fallen(x: Option<Namespace>, claim: Claim, quiet: bool, w: World, r: Record, step: int) {
    && (step == -1 ==> !r.head.active && r.head.recoveryRequired)
    && (step == 1 ==> r.head.active && r.head.rollbackActive)
    && (step == 0 ==> !r.head.active && !r.head.rollbackActive && !r.head.recoveryRequired)
    && (x.Some? && !claim.Loose? ==>
          && AllGood(claim, x.value, w.history) && (step != 0 ==> Stands(quiet, claim, x, w, r))
          && (step == 1 ==> Follows(quiet, claim, x, w, r) && Rollable(r))
          && (step == 0 ==> w.ns == x.value))
  }

  method Fall(op: Operation, result: Result, ghost x: Option<Namespace>) returns (res: Result, step: int)
    requires op.Well() && op.r.head.operation.Copy?
    requires x.Some? && !op.claim.Loose? ==> Stands(op.backend.quiet, op.claim, x, op.backend.w, op.r)
    modifies op`r, op`sourceHandle, op`tempHandle, op`fileOpen, op.backend`w
    ensures op.Well() && op.r.head.operation.Copy? && (step == -1 || step == 0 || step == 1)
    ensures SameJob(old(op.r), op.r)
    ensures res == if step == -1 then RollbackFailed else if step == 1 then InProgress else result
    ensures Fallen(x, op.claim, op.backend.quiet, op.backend.w, op.r, step)
  {
    res, step := op.FinishFailure(result, if op.claim.Loose? then None else x);
  }

  predicate MadeDirectory(e: Entry) { e.task.kind.Directory? && e.created }

  /** Copies the metadata of the directories the copy created and syncs each and its parent, the last
      entry first. It succeeds exactly when all of them were synced. */
  method FinishDirectories(op: Operation) returns (res: Result, ghost synced: seq<nat>)
    requires op.Well()
    modifies op.backend`w
    ensures op.Well() && (op.backend.quiet ==> op.backend.w == old(op.backend.w))
    ensures forall a, b :: 0 <= a < b < |synced| ==> synced[a] > synced[b]
    ensures forall j :: j in synced ==> j < |op.r.entries| && MadeDirectory(op.r.entries[j])
    ensures res == OK <==> forall j: nat :: j < |op.r.entries| && MadeDirectory(op.r.entries[j]) ==> j in synced
    ensures op.backend.reliable ==> res == OK
  {
    hide Sound;
    var k := |op.r.entries|;
    synced := [];
    while k > 0
      invariant k <= |op.r.entries| && op.Well()
      invariant op.backend.quiet ==> op.backend.w == old(op.backend.w)
      invariant forall a, b :: 0 <= a < b < |synced| ==> synced[a] > synced[b]
      invariant forall a :: 0 <= a < |synced| ==> synced[a] >= k
      invariant forall j :: j in synced ==> k <= j < |op.r.entries| && MadeDirectory(op.r.entries[j])
      invariant forall j: nat :: k <= j < |op.r.entries| && MadeDirectory(op.r.entries[j]) ==> j in synced
    {
      k := k - 1;
      if MadeDirectory(op.r.entries[k]) {
        var status := op.Touch();
        if status == Ok { status := op.Touch(); }
        if status == Ok { status := op.Touch(); }
        if status != Ok { return ResultOf(status), synced; }
        synced := synced + [k];
      }
    }
    res := OK;
  }

  /** Moves on to the next entry. */
  method NextEntry(op: Operation, ghost x: Option<Namespace>)
    requires op.Well() && !op.fileOpen && Passes(op.r, op.stream)
    requires Follows(op.backend.quiet, op.claim, x, op.backend.w, op.r)
    requires x.Some? ==> EntryDone(op.claim, x.value, op.backend.w.ns, op.r)
    modifies op`r
    ensures op.Well() && Running(op.r, op.fileOpen, op.stream)
    ensures op.r == WithHead(old(op.r), old(op.r.head).(entryIndex := old(op.r.head.entryIndex) + 1))
    ensures op.r.entries == old(op.r.entries)
    ensures Follows(op.backend.quiet, op.claim, x, op.backend.w, op.r)
    ensures x.Some? ==> Forward(op.claim, x.value, op.backend.w, op.r, op.fileOpen, op.stream)
  {
    hide Recover, AllGood, Forward, EntryDone, Sound, Restorable, AllRoll, Blocked, Skipped;
    IndexInBounds(op.backend.w, op.r);
    if x.Some? { ForwardNext(op.claim, x.value, op.backend.w, op.r, op.stream); }
    op.SetHead(op.r.head.(entryIndex := op.r.head.entryIndex + 1), x);
  }

  /** Passes over a skipped entry; the bytes of a skipped file count as done. */
  method SkipEntry(op: Operation, ghost x: Option<Namespace>) returns (turn: Turn)
    requires Running(op.r, op.fileOpen, op.stream) && !op.fileOpen
    requires op.r.head.entryIndex < |op.r.entries| && Skipped(op.r.entries, op.r.head.entryIndex)
    requires Follows(op.backend.quiet, op.claim, x, op.backend.w, op.r)
    requires x.Some? ==> Forward(op.claim, x.value, op.backend.w, op.r, op.fileOpen, op.stream)
    modifies op`stream
    ensures Goes(op.r, op.fileOpen, op.stream, turn) && turn.Advance?
    ensures old(op.stream.completed) <= op.stream.completed
    ensures Kept(x, op.claim, op.backend.quiet, op.backend.w, op.r, op.fileOpen, op.stream, turn)
  {
    hide Follows, Skipped;
    var e := op.r.entries[op.r.head.entryIndex];
    FileBytesGrow(op.r.entries, op.r.head.entryIndex + 1, |op.r.entries|);
    if e.task.kind.File? {
      if U64_MAX < op.stream.completed + e.task.size { return Fell(IoFailed); }
      op.stream := op.stream.(completed := op.stream.completed + e.task.size);
    }
    PassesOn(op.r, op.r, op.stream);
    turn := Advance;
  }

  /** Past the last entry: sync the directories and stop. */
  method Complete(op: Operation, ghost x: Option<Namespace>) returns (res: Result)
    requires op.Well() && Running(op.r, op.fileOpen, op.stream)
    requires op.r.head.entryIndex == |op.r.entries|
    requires Follows(op.backend.quiet, op.claim, x, op.backend.w, op.r)
    requires x.Some? ==> Forward(op.claim, x.value, op.backend.w, op.r, op.fileOpen, op.stream)
    modifies op`r, op.backend`w
    ensures op.Well() && Running(op.r, op.fileOpen, op.stream) && !op.fileOpen
    ensures Ended(op.backend.quiet, op.claim, x, op.backend.w, op.r)
    ensures res != OK ==> Follows(op.backend.quiet, op.claim, x, op.backend.w, op.r)
    ensures x.Some? ==> Forward(op.claim, x.value, op.backend.w, op.r, op.fileOpen, op.stream)
    ensures op.r == WithHead(old(op.r), old(op.r.head).(active := res != OK && old(op.r.head.active)))
    ensures SameTasks(old(op.r.entries), op.r.entries)
    ensures op.backend.reliable ==> res == OK
  {
    hide Recover, AllGood, Sound, Restorable, AllRoll, Blocked;
    IndexInBounds(op.backend.w, op.r);
    ghost var synced;
    res, synced := FinishDirectories(op);
    if res == OK {
      op.SetHead(op.r.head.(active := false), x);
    }
  }

  /** What the entry at the index calls for. */
  method PumpEntry(op: Operation, ghost x: Option<Namespace>) returns (turn: Turn)
    requires op.Well() && Running(op.r, op.fileOpen, op.stream)
    requires op.r.head.entryIndex < |op.r.entries|
    requires Follows(op.backend.quiet, op.claim, x, op.backend.w, op.r)
    requires x.Some? ==> Forward(op.claim, x.value, op.backend.w, op.r, op.fileOpen, op.stream)
    modifies op`r, op`sourceHandle, op`tempHandle, op`fileOpen, op`tempSequence, op`stream, op.backend`w
    ensures op.Well() && op.r.head == old(op.r.head) && SameTasks(old(op.r.entries), op.r.entries)
    ensures Goes(op.r, op.fileOpen, op.stream, turn)
    ensures Kept(x, op.claim, op.backend.quiet, op.backend.w, op.r, op.fileOpen, op.stream, turn)
    ensures x.Some? && old(Able(op)) ==> !turn.Fell?
    ensures !turn.Fell? ==> old(op.stream.completed) <= op.stream.completed
    ensures turn.Stay? ==>
      && (op.fileOpen || Skipped(op.r.entries, op.r.head.entryIndex))
      && (old(op.fileOpen) ==> old(op.stream.completed) < op.stream.completed)
      && !old(Skipped(op.r.entries, op.r.head.entryIndex))
    ensures x.Some? && !turn.Fell? ==> KeepsBacked(op.backend.proposal, old(op.r.entries), op.r.entries)
  {
    assert op.fileOpen ==> !Skipped(op.r.entries, op.r.head.entryIndex);
    assert op.r.head.operation.Copy?;
    hide Recover, AllGood, Sound, Forward, Running, Allows, AllowsReplacing;
    if Skipped(op.r.entries, op.r.head.entryIndex) {
      turn := SkipEntry(op, x);
    } else if op.cancelRequested {
      turn := Fell(Cancelled);
    } else if op.fileOpen {
      turn := PumpData(op, x);
    } else {
      turn := BeginEntry(op, x);
    }
  }

  lemma AbleIs(op: Operation)
    ensures Able(op) ==> op.backend.reliable
  {
  }

  /** A pump that stays at an entry or finishes it leaves less to do. */
  lemma LessLeft(r0: Record, open: bool, s0: Stream, r: Record, fileOpen: bool, s: Stream, turn: Turn)
    requires r0.head.entryIndex < |r0.entries| && r.head == r0.head && SameTasks(r0.entries, r.entries)
    requires !turn.Fell? ==> s0.completed <= s.completed
    requires turn.Stay? ==>
      && (fileOpen || Skipped(r.entries, r.head.entryIndex)) && (open ==> s0.completed < s.completed)
      && !Skipped(r0.entries, r0.head.entryIndex)
    ensures turn.Stay? ==> Left(r, fileOpen, s) < Left(r0, open, s0)
    ensures turn.Advance? ==>
      Left(WithHead(r, r.head.(entryIndex := r.head.entryIndex + 1)), false, s) < Left(r0, open, s0)
  {
    forall j | 0 <= j < |r0.entries| ensures SameTask(r0.entries[j], r.entries[j]) { }
    FileBytesSame(r0.entries, r.entries, |r.entries|);
    assert WithHead(r, r.head.(entryIndex := r.head.entryIndex + 1)).entries == r.entries;
  }

  /** One pump of a copy. The step is 2 while the copy goes forward. */
  method PumpCopy(op: Operation, ghost x: Option<Namespace>) returns (res: Result, step: int)
    requires op.Well() && Running(op.r, op.fileOpen, op.stream)
    requires Follows(op.backend.quiet, op.claim, x, op.backend.w, op.r)
    requires x.Some? ==> Forward(op.claim, x.value, op.backend.w, op.r, op.fileOpen, op.stream)
    modifies op`r, op`sourceHandle, op`tempHandle, op`fileOpen, op`tempSequence, op`stream, op.backend`w
    ensures op.Well() && -1 <= step <= 2 && SameJob(old(op.r), op.r)
    ensures op.r.head.operation.Copy?
    ensures step != 2 ==> Fallen(x, op.claim, op.backend.quiet, op.backend.w, op.r, step)
    ensures step == 2 ==> Running(op.r, op.fileOpen, op.stream)
    ensures step == 2 && x.Some? ==>
      && Ended(op.backend.quiet, op.claim, x, op.backend.w, op.r)
      && (res == InProgress ==> Follows(op.backend.quiet, op.claim, x, op.backend.w, op.r))
      && Forward(op.claim, x.value, op.backend.w, op.r, op.fileOpen, op.stream)
    ensures step == 2 && res != InProgress ==>
      res == Completed && !op.r.head.active && op.r.head.entryIndex == |op.r.entries| && !op.fileOpen
    ensures step == 2 && res == InProgress ==> op.r.head.active == old(op.r.head.active)
    ensures step == 2 ==>
      op.r.head == old(op.r.head).(active := op.r.head.active, entryIndex := op.r.head.entryIndex)
    ensures x.Some? && old(Able(op)) ==>
      step == 2 && (res == Completed || Left(op.r, op.fileOpen, op.stream) < old(Left(op.r, op.fileOpen, op.stream)))
    ensures x.Some? && step == 2 ==> KeepsBacked(op.backend.proposal, old(op.r.entries), op.r.entries)
  {
    hide Recover, AllGood, Sound, Forward, Fallen, EntryDone, Passes, Stands, Streaming, Skipped, Allows, Left, Able;
    hide Running, Restorable, AllRoll, KeepsBacked, AllowsReplacing;
    BackedSame(op.backend.proposal, op.r.entries);
    IsCopy(op.r, op.fileOpen, op.stream);
    IndexInBounds(op.backend.w, op.r);
    ghost var r0, open, s0 := op.r, op.fileOpen, op.stream;
    AbleIs(op);
    if op.r.head.entryIndex >= |op.r.entries| {
      res := Complete(op, x);
      step := 2;
      if res != OK {
        res, step := Fall(op, res, x);
      } else {
        res := Completed;
      }
    } else {
      var turn := PumpEntry(op, x);
      LessLeft(r0, open, s0, op.r, op.fileOpen, op.stream, turn);
      res, step := InProgress, 2;
      if turn.Fell? {
        res, step := Fall(op, turn.result, x);
      } else if turn.Advance? {
        NextEntry(op, x);
      }
    }
  }
}
