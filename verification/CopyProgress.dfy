/** A copy that can succeed does: where nothing stands in the way of the plan and calls fail only for
    cause, every pump gets on and the copy comes to its end. */
module CopyProgress {
  import opened Common
  import opened Namespaces
  import opened UndoSpec
  import opened ForwardSpec
  import opened FileBackend
  import opened FileOperations
  import opened FileCopy
  import opened CopyStream
  import opened CopyRun
  import opened FileMove
  import opened FileRuns

  // What the plan needs of the namespace it starts from.

  /** Neither the start nor an earlier entry has the destination. */
  ghost predicate Clear(x: Namespace, plan: seq<Entry>, j: nat)
    requires j < |plan|
  {
    plan[j].task.dest !in x && forall k :: 0 <= k < j ==> plan[k].task.dest != plan[j].task.dest
  }

  predicate Over(plan: seq<Entry>, k: nat, j: nat)
    requires k < |plan| && j < |plan|
  {
    k < j && plan[k].task.kind.Directory? && plan[k].task.source <= plan[j].task.source
  }

  /** Nothing makes the copy pass the entry over. */
  ghost predicate NeverSkipped(x: Namespace, plan: seq<Entry>, j: nat)
    requires j < |plan|
  {
    Clear(x, plan, j) && forall k :: 0 <= k < j ==> Over(plan, k, j) ==> Clear(x, plan, k)
  }

  /** The entry is passed over: its name or that of a directory over it is taken from the start. */
  ghost predicate SurelySkipped(x: Namespace, plan: seq<Entry>, j: nat)
    requires j < |plan|
  {
    plan[j].task.dest in x || exists k :: 0 <= k < j && Over(plan, k, j) && plan[k].task.dest in x
  }

  /** The directory of the destination is there from the start, or an earlier entry makes it. */
  ghost predicate Housed(x: Namespace, plan: seq<Entry>, j: nat)
    requires j < |plan|
  {
    var task := plan[j].task;
    && task.dest != []
    && (Parent(task.dest) in x ||
        exists k :: 0 <= k < j && plan[k].task.dest == Parent(task.dest) && plan[k].task.source <= task.source)
  }

  /** What is to be copied is there as planned. */
  ghost predicate Supplied(x: Namespace, plan: seq<Entry>, j: nat)
    requires j < |plan|
  {
    var task := plan[j].task;
    match task.kind
    case File => task.source in x && |x[task.source].content| == task.size
    case Directory => true
    case Symlink => task.source in x && TargetValid(x[task.source].content)
    case Hardlink => task.linkSource < j && !plan[task.linkSource].task.kind.Directory? &&
                     NeverSkipped(x, plan, task.linkSource)
  }

  ghost predicate FeasibleEntry(x: Namespace, policy: Policy, plan: seq<Entry>, j: nat)
    requires j < |plan|
  {
    || (policy.ConflictSkip? && SurelySkipped(x, plan, j))
    || (Housed(x, plan, j) && Supplied(x, plan, j) && (policy.ConflictFail? ==> Clear(x, plan, j)))
  }

  /** Nothing stands in the way of the plan. */
  ghost predicate Feasible(x: Namespace, policy: Policy, plan: seq<Entry>) {
    !policy.ConflictReplace? && forall j :: 0 <= j < |plan| ==> FeasibleEntry(x, policy, plan, j)
  }

  // That is enough at every step.

  /** A run of the plan that stands before its next entry. */
  ghost predicate Before(x: Namespace, claim: Claim, w: World, r: Record, stream: Stream) {
    && Sound(w, r) && Forward(claim, x, w, r, false, stream) && Recover(w.ns, r) == Some(x) && !r.tempCreated
    && r.head.operation.Copy? && !r.head.policy.ConflictReplace? && r.head.entryIndex < |r.entries|
  }

  lemma NamesSoFar(x: Namespace, claim: Claim, w: World, r: Record, stream: Stream)
    requires Before(x, claim, w, r, stream)
    ensures forall p :: p in w.ns <==> p in x || MadeAt(r.entries, p)
  {
    UndoneDestinations(w.ns, r.entries, |r.entries|, x);
    assert r.entries[..|r.entries|] == r.entries;
  }

  lemma TakenIsNotClear(x: Namespace, entries: seq<Entry>, j: nat)
    requires j < |entries|
    ensures Taken(x, entries, j) ==> !Clear(x, entries, j)
  {
    if MadeAt(entries[..j], entries[j].task.dest) {
      var m :| 0 <= m < |entries[..j]| && entries[..j][m].created &&
               entries[..j][m].task.dest == entries[j].task.dest;
      assert entries[m].task.dest == entries[j].task.dest;
    }
  }

  /** An entry that is never skipped and lies behind was made. */
  lemma MadeUnlessSkipped(x: Namespace, claim: Claim, w: World, r: Record, stream: Stream, k: nat)
    requires Before(x, claim, w, r, stream) && k < r.head.entryIndex && NeverSkipped(x, r.entries, k)
    ensures r.entries[k].created && Done(r.entries[k]) && Placed(x, w.ns, r.entries[k])
  {
    if Skipped(r.entries, k) {
      var a := k;
      if !r.entries[k].skip {
        a :| 0 <= a < k && r.entries[a].skip && r.entries[a].task.kind.Directory? &&
             r.entries[a].task.source <= r.entries[k].task.source;
        assert Over(r.entries, a, k);
      }
      TakenIsNotClear(x, r.entries, a);
    }
    assert Placed(x, w.ns, r.entries[k]);
  }

  /** An entry whose name is taken from the start is passed over, itself or with a directory over it. */
  lemma SkippedIfTaken(x: Namespace, claim: Claim, w: World, r: Record, stream: Stream, k: nat)
    requires Before(x, claim, w, r, stream) && k < r.head.entryIndex && r.entries[k].task.dest in x
    ensures Skipped(r.entries, k)
  {
    UndoneDestinations(w.ns, r.entries, |r.entries|, x);
    assert r.entries[..|r.entries|] == r.entries;
    CreatedIsMade(r.entries, k);
  }

  lemma CreatedIsMade(entries: seq<Entry>, k: nat)
    requires k < |entries|
    ensures entries[k].created ==> MadeAt(entries, entries[k].task.dest)
  {
  }

  /** A skipped directory takes along what lies under it. */
  lemma SkipsUnder(entries: seq<Entry>, k: nat, j: nat)
    requires k < j < |entries| && Skipped(entries, k) && entries[k].task.source <= entries[j].task.source
    requires entries[k].task.kind.Directory? || !entries[k].skip
    ensures Skipped(entries, j)
  {
    if !entries[k].skip {
      var a :| 0 <= a < k && entries[a].skip && entries[a].task.kind.Directory? &&
               entries[a].task.source <= entries[k].task.source;
      assert entries[a].task.source <= entries[j].task.source;
    }
  }

  lemma NotSurelySkipped(x: Namespace, claim: Claim, w: World, r: Record, stream: Stream)
    requires Before(x, claim, w, r, stream) && !Skipped(r.entries, r.head.entryIndex)
    requires r.entries[r.head.entryIndex].task.dest !in w.ns
    ensures !SurelySkipped(x, r.entries, r.head.entryIndex)
  {
    var i := r.head.entryIndex;
    NamesSoFar(x, claim, w, r, stream);
    if SurelySkipped(x, r.entries, i) {
      var k :| 0 <= k < i && Over(r.entries, k, i) && r.entries[k].task.dest in x;
      SkippedIfTaken(x, claim, w, r, stream, k);
      SkipsUnder(r.entries, k, i);
    }
  }

  lemma HouseStands(x: Namespace, claim: Claim, w: World, r: Record, stream: Stream)
    requires Before(x, claim, w, r, stream) && !Skipped(r.entries, r.head.entryIndex)
    requires Housed(x, r.entries, r.head.entryIndex)
    ensures Parent(r.entries[r.head.entryIndex].task.dest) in w.ns
  {
    var i := r.head.entryIndex;
    var task := r.entries[i].task;
    if Parent(task.dest) !in x {
      var k :| 0 <= k < i && r.entries[k].task.dest == Parent(task.dest) && r.entries[k].task.source <= task.source;
      assert Placed(x, w.ns, r.entries[k]);
      if !r.entries[k].created {
        if r.entries[k].skip {
          NamesSoFar(x, claim, w, r, stream);
          assert Taken(x, r.entries, k);
          var m :| 0 <= m < |r.entries[..k]| && r.entries[..k][m].created &&
                   r.entries[..k][m].task.dest == r.entries[k].task.dest;
          assert r.entries[m].created && r.entries[m].task.dest == r.entries[k].task.dest;
        } else {
          SkipsUnder(r.entries, k, i);
        }
      }
    }
  }

  /** The namespace allows the next entry of a feasible plan. */
  lemma AllowsNext(x: Namespace, claim: Claim, w: World, r: Record, stream: Stream, sequence: nat)
    requires Before(x, claim, w, r, stream) && !Skipped(r.entries, r.head.entryIndex)
    requires Feasible(x, r.head.policy, r.entries) && NamesFree(x, r)
    ensures Allows(w.ns, r, r.head.entryIndex, sequence)
  {
    var i := r.head.entryIndex;
    var task := r.entries[i].task;
    assert FeasibleEntry(x, r.head.policy, r.entries, i);
    NamesSoFar(x, claim, w, r, stream);
    if task.dest in w.ns {
      FoundTaken(claim, x, w, r, stream);
      TakenIsNotClear(x, r.entries, i);
    } else {
      NotSurelySkipped(x, claim, w, r, stream);
      HouseStands(x, claim, w, r, stream);
      SupplyStands(x, claim, w, r, stream, sequence);
    }
  }

  lemma SupplyStands(x: Namespace, claim: Claim, w: World, r: Record, stream: Stream, sequence: nat)
    requires Before(x, claim, w, r, stream) && NamesFree(x, r)
    requires Supplied(x, r.entries, r.head.entryIndex) && CanCreate(w.ns, r.entries[r.head.entryIndex].task.dest)
    ensures Allows(w.ns, r, r.head.entryIndex, sequence)
  {
    var i := r.head.entryIndex;
    var task := r.entries[i].task;
    match task.kind
    case File =>
      NameOfEntry(r.entries, i, sequence);
      NameIsFree(w, r, x, TempPathOf(task.dest, sequence));
    case Hardlink => MadeUnlessSkipped(x, claim, w, r, stream, task.linkSource);
    case _ =>
  }

  // The whole run.

  lemma FeasibleSame(x: Namespace, policy: Policy, a: seq<Entry>, b: seq<Entry>)
    requires SameTasks(a, b) && Feasible(x, policy, a)
    ensures Feasible(x, policy, b)
  {
    forall j | 0 <= j < |a| ensures SameTask(a[j], b[j]) { }
    forall j | 0 <= j < |b| ensures FeasibleEntry(x, policy, b, j) {
      assert FeasibleEntry(x, policy, a, j);
      EntrySame(x, policy, a, b, j);
    }
  }

  lemma EntrySame(x: Namespace, policy: Policy, a: seq<Entry>, b: seq<Entry>, j: nat)
    requires |a| == |b| && j < |a| && forall k :: 0 <= k < |a| ==> SameTask(a[k], b[k])
    requires FeasibleEntry(x, policy, a, j)
    ensures FeasibleEntry(x, policy, b, j)
  {
    forall k: nat | k < |a| ensures Clear(x, a, k) == Clear(x, b, k) { }
    forall k: nat | k < |a| ensures NeverSkipped(x, a, k) == NeverSkipped(x, b, k) {
      assert forall m :: 0 <= m < k ==> Over(a, m, k) == Over(b, m, k);
    }
    assert forall m :: 0 <= m < j ==> Over(a, m, j) == Over(b, m, j);
  }

  lemma NextIsAble(x: Namespace, claim: Claim, w: World, r: Record, fileOpen: bool, stream: Stream, sequence: nat)
    requires Sound(w, r) && InPhase(Some(x), claim, true, w, r, fileOpen, stream, Going)
    requires Feasible(x, r.head.policy, r.entries) && NamesFree(x, r)
    ensures r.head.entryIndex < |r.entries| && !fileOpen && !Skipped(r.entries, r.head.entryIndex) ==>
      Allows(w.ns, r, r.head.entryIndex, sequence)
  {
    if r.head.entryIndex < |r.entries| && !fileOpen && !Skipped(r.entries, r.head.entryIndex) {
      AllowsNext(x, claim, w, r, stream, sequence);
    }
  }

  /** Every copy of a feasible plan, replacing nothing and with free temporary names, comes to its end
      when nobody else touches the namespace, nobody cancels and calls fail only for cause; however
      short the reads and writes are, it takes at most two pumps an entry, one a byte and one more. */
  method CopySucceeds(ns: Namespace, policy: Policy, plan: seq<Entry>, limit: nat, capacity: nat, proposal: Proposal)
    returns (op: Operation, pumps: nat)
    requires Closed(ns) && Startable(Copy, policy, plan, limit) && capacity > 0
    requires Feasible(ns, policy, plan) && NamesFree(ns, StartedRecord(Copy, policy, plan))
    ensures op.Well() && op.backend.quiet && op.backend.start == FirstInstant(ns, Copy, policy, plan)
    ensures SameJob(StartedRecord(Copy, policy, plan), op.r)
    ensures InPhase(Some(ns), op.claim, true, op.backend.w, op.r, false, op.stream, Copied)
    ensures pumps <= 2 * |plan| + FileBytes(plan, |plan|) + 1
    ensures policy.ConflictFail? ==> forall j :: 0 <= j < |plan| ==> Delivered(ns, op.backend.w.ns, plan, j)
  {
    hide Sound, InPhase, Startable, SameTasks, Feasible, NamesFree, StartedRecord, Left, Able, Harmless, Recover;
    op := Begin(ns, policy, plan, limit, capacity, true, true, proposal);
    StartLeft(op, ns, policy, plan, limit);
    var phase := Going;
    pumps := 0;
    while phase.Going?
      invariant op.Well() && SameJob(StartedRecord(Copy, policy, plan), op.r) && fresh(op) && fresh(op.backend)
      invariant op.backend.quiet && op.backend.reliable && op.backend.start == FirstInstant(ns, Copy, policy, plan)
      invariant op.capacity > 0 && !op.cancelRequested && (phase.Going? || phase.Copied?)
      invariant InPhase(Some(ns), op.claim, true, op.backend.w, op.r, op.fileOpen, op.stream, phase)
      invariant phase.Going? ==>
        pumps + Left(op.r, op.fileOpen, op.stream) <= 2 * |plan| + FileBytes(plan, |plan|)
      invariant pumps <= 2 * |plan| + FileBytes(plan, |plan|) + 1
      decreases phase.Going?, Left(op.r, op.fileOpen, op.stream)
    {
      PlanIsAble(op, ns, policy, plan, limit);
      ghost var r0 := op.r;
      phase := Pump(op, phase, Some(ns));
      SameJobThrough(StartedRecord(Copy, policy, plan), r0, op.r);
      pumps := pumps + 1;
    }
    CopiedIsClosed(Some(ns), op.claim, op.backend.w, op.r, op.fileOpen, op.stream);
    if policy.ConflictFail? { AllDelivered(op, ns, policy, plan, limit); }
  }

  /** The entry's object is at its destination: a file with the bytes of its source, a symbolic link with its
      target, a hard link as a second name of what it links to. */
  predicate Delivered(x: Namespace, ns: Namespace, plan: seq<Entry>, j: nat)
    requires j < |plan|
  {
    var task := plan[j].task;
    && task.dest in ns && RightKind(task.kind, ns[task.dest].kind) && Carried(x, task, ns[task.dest])
    && (task.kind.Hardlink? ==>
          && task.linkSource < j && plan[task.linkSource].task.dest in ns
          && ns[task.dest] == ns[plan[task.linkSource].task.dest])
  }

  lemma StartLeft(op: Operation, ns: Namespace, policy: Policy, plan: seq<Entry>, limit: nat)
    requires op.r == StartedRecord(Copy, policy, plan) && Startable(Copy, policy, plan, limit)
    requires InPhase(Some(ns), op.claim, true, op.backend.w, op.r, op.fileOpen, op.stream, Going)
    ensures Left(op.r, op.fileOpen, op.stream) <= 2 * |plan| + FileBytes(plan, |plan|)
  {
    FileBytesSame(plan, op.r.entries, |plan|);
  }

  lemma PlanIsAble(op: Operation, ns: Namespace, policy: Policy, plan: seq<Entry>, limit: nat)
    requires op.Well() && SameJob(StartedRecord(Copy, policy, plan), op.r) && Startable(Copy, policy, plan, limit)
    requires InPhase(Some(ns), op.claim, true, op.backend.w, op.r, op.fileOpen, op.stream, Going)
    requires Feasible(ns, policy, plan) && NamesFree(ns, StartedRecord(Copy, policy, plan))
    requires op.backend.reliable && op.capacity > 0 && !op.cancelRequested
    ensures Able(op) && Left(op.r, op.fileOpen, op.stream) >= 0 && op.r.head.operation.Copy?
  {
    hide Sound, InPhase, NamesFree, StartedRecord, Allows, Left, Startable, Feasible, SameTasks, Skipped;
    PlanOf(Copy, policy, plan, limit, op.r);
    JobHead(policy, plan, op.r);
    FeasibleSame(ns, policy, plan, op.r.entries);
    SameNames(ns, StartedRecord(Copy, policy, plan), op.r);
    GoingRuns(Some(ns), op.claim, op.backend.w, op.r, op.fileOpen, op.stream);
    NextIsAble(ns, op.claim, op.backend.w, op.r, op.fileOpen, op.stream, op.tempSequence + 1);
  }

  lemma JobHead(policy: Policy, plan: seq<Entry>, r: Record)
    requires SameJob(StartedRecord(Copy, policy, plan), r)
    ensures r.head.operation.Copy? && r.head.policy == policy
  {
  }

  lemma GoingRuns(x: Option<Namespace>, claim: Claim, w: World, r: Record, fileOpen: bool, stream: Stream)
    requires InPhase(x, claim, true, w, r, fileOpen, stream, Going)
    ensures Left(r, fileOpen, stream) >= 0
  {
    hide Left;
    NotNegative(r, fileOpen, stream);
  }

  lemma NotNegative(r: Record, fileOpen: bool, stream: Stream)
    requires Running(r, fileOpen, stream)
    ensures Left(r, fileOpen, stream) >= 0
  {
    FileBytesGrow(r.entries, r.head.entryIndex, |r.entries|);
    if fileOpen { FileBytesGrow(r.entries, r.head.entryIndex + 1, |r.entries|); }
  }

  lemma CopiedIsClosed(x: Option<Namespace>, claim: Claim, w: World, r: Record, fileOpen: bool, stream: Stream)
    requires InPhase(x, claim, true, w, r, fileOpen, stream, Copied)
    ensures !fileOpen
  {
  }

  lemma AllDelivered(op: Operation, ns: Namespace, policy: Policy, plan: seq<Entry>, limit: nat)
    requires op.Well() && SameJob(StartedRecord(Copy, policy, plan), op.r) && Startable(Copy, policy, plan, limit)
    requires InPhase(Some(ns), op.claim, true, op.backend.w, op.r, false, op.stream, Copied) && policy.ConflictFail?
    ensures forall j :: 0 <= j < |plan| ==> Delivered(ns, op.backend.w.ns, plan, j)
  {
    PlanOf(Copy, policy, plan, limit, op.r);
    forall j | 0 <= j < |plan| ensures SameTask(plan[j], op.r.entries[j]) { }
    forall j | 0 <= j < |plan| ensures Delivered(ns, op.backend.w.ns, plan, j) {
      CopyIsFaithful(ns, op.claim, op.backend.w, op.r, op.stream, j);
      assert op.r.entries[j].created;
    }
  }
}
