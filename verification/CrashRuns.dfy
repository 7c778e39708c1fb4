/** Runs that are cut short: recovery that is itself interrupted again and again, and the smallest
    runs in which recovery does not restore the start. */
module CrashRuns {
  import opened Common
  import opened Namespaces
  import opened UndoSpec
  import opened ForwardSpec
  import opened FileBackend
  import opened FileOperations
  import opened FileRecovery
  import opened FileCopy
  import opened CopyRun
  import opened CopyStream
  import opened FileMove
  import opened FileLimits
  import opened FileRuns
  import opened Whereabouts

  /** A copy that is cut at any moment, and whose recoveries are cut at any of theirs, with calls
      failing at will, is at every moment of all these runs on the way back to where it started, and
      is there as soon as one recovery is let run; except from the one moment at which it is blocked. */
  method CrashOften(ns: Namespace, policy: Policy, plan: seq<Entry>, limit: nat, capacity: nat, reliable: bool,
                    proposal: Proposal, pumps: nat, moment: nat, cuts: seq<nat>, retries: nat)
    returns (op: Operation, phase: Phase, pumped: nat, runs: seq<Operation>)
    requires Closed(ns) && Startable(Copy, policy, plan, limit) && ExactPlan(policy, plan)
    ensures op.Well() && op.backend.quiet && op.backend.start == FirstInstant(ns, Copy, policy, plan)
    ensures SameJob(StartedRecord(Copy, policy, plan), op.r)
    ensures InPhase(Some(ns), Exact, true, op.backend.w, op.r, op.fileOpen, op.stream, phase)
    ensures pumped == pumps || (pumped < pumps && !phase.Going? && !phase.RollingBack?)
    ensures moment < |op.backend.w.history| ==>
      var crash := op.backend.w.history[moment];
      && (NamesFree(ns, StartedRecord(Copy, policy, plan)) ==> !Blocked(crash.ns, crash.saved))
      && (!Blocked(crash.ns, crash.saved) ==>
            && |runs| == |cuts| + 1 && Chained(crash, runs, cuts)
            && (forall k :: 0 <= k < |runs| ==> AllGood(Strict(0), ns, runs[k].backend.w.history))
            && runs[|cuts|].backend.w.ns == ns && !runs[|cuts|].r.head.recoveryRequired)
  {
    hide Sound, Recover, Sane, Chained, Forward, Running;
    op, phase, pumped := RunCopy(ns, policy, plan, limit, capacity, true, reliable, proposal, pumps);
    runs := [];
    if moment < |op.backend.w.history| {
      var crash := op.backend.w.history[moment];
      PlanOf(Copy, policy, plan, limit, op.r);
      HistoryPlanned(op.backend.w, op.r, plan, moment);
      SameJobThrough(StartedRecord(Copy, policy, plan), op.r, crash.saved);
      SameNames(ns, StartedRecord(Copy, policy, plan), crash.saved);
      GoodAt(Exact, ns, op.backend.w.history, moment);
      GoodMoment(ns, crash);
      BlockedNeverRecovers(crash.ns, crash.saved);
      hide SameTasks, NamesFree, StartedRecord, InPhase;
      if !Blocked(crash.ns, crash.saved) {
        runs := RecoverThrough(crash, plan, limit, cuts, retries, proposal, ns);
      }
    }
  }

  /** Nothing is ever lost or duplicated by a move: with nobody else about, let the move be cut at any
      moment, and recovery after recovery again, in the window of a rename or outside it, calls failing
      at will; every object of the start that carries no token is at every moment of all of these runs
      under exactly one name, and for a plan with independent paths every such entry is wholly at its
      source or wholly at its destination. */
  method MoveThroughCrashes(kind: OperationKind, ns: Namespace, policy: Policy, plan: seq<Entry>, limit: nat,
                            reliable: bool, pumps: nat, cuts: seq<nat>, retries: nat)
    returns (runs: seq<Operation>, phase: Phase, ghost loss: Loss, pumped: nat)
    requires Closed(ns) && !kind.Copy? && Startable(kind, policy, plan, limit)
    ensures Chained(FirstInstant(ns, kind, policy, plan), runs, cuts)
    ensures InMovePhase(LossClaim(loss), Aim(Some(ns), loss), true, runs[0].backend.w, runs[0].r, phase)
    ensures Explained(plan, ns, reliable, runs[0].backend.w.history, loss)
    ensures pumped == pumps || (pumped < pumps && !phase.Going? && !phase.RollingBack?)
    ensures forall i :: 0 <= i < |runs| ==> NothingLost(plan, ns, runs[i].backend.w.history)
    ensures |runs| <= |cuts| ==>
      var last := runs[|runs| - 1].backend.w.history;
      |last| > 0 && !Interrupted(Stop(last, cuts[|runs| - 1]).saved)
  {
    hide Sound, Recover, Sane, NothingLost, SameTasks, Closed, StartedRecord, Startable, Preserved, Stop, BeginsWith;
    hide InMovePhase, Explained, Chained, TokenFree, Harmless;
    var op;
    op, phase, loss, pumped := RunMove(kind, ns, policy, plan, limit, true, reliable, pumps);
    runs := [op];
    LoneChain(FirstInstant(ns, kind, policy, plan), op, cuts);
    LawfulHistory(op.backend.w, op.r);
    while |runs| <= |cuts| && Interrupted(Stop(op.backend.w.history, cuts[|runs| - 1]).saved)
      invariant |runs| > 0 && op == runs[|runs| - 1] && Chained(FirstInstant(ns, kind, policy, plan), runs, cuts)
      invariant forall i :: 0 <= i < |runs| ==>
        fresh(runs[i]) && fresh(runs[i].backend) && NothingLost(plan, ns, runs[i].backend.w.history)
      invariant SameJob(StartedRecord(kind, policy, plan), op.r) && op.backend.quiet && op.Well()
      invariant |op.backend.w.history| > 0
      invariant InMovePhase(LossClaim(loss), Aim(Some(ns), loss), true, runs[0].backend.w, runs[0].r, phase)
      invariant Explained(plan, ns, reliable, runs[0].backend.w.history, loss)
      decreases |cuts| - |runs|
    {
      var crash := Stop(op.backend.w.history, cuts[|runs| - 1]);
      StopPlanned(op.backend.w, op.r, kind, policy, plan, limit, cuts[|runs| - 1], ns);
      var finished, turns;
      op, finished, turns := RecoverFrom(crash, plan, limit, true, reliable, retries, (_, _) => None, None);
      LawfulHistory(op.backend.w, op.r);
      SameJobThrough(StartedRecord(kind, policy, plan), crash.saved, op.r);
      EverywhereKept(op.backend.w, op.r, kind, policy, plan, limit, ns);
      ChainGrows(FirstInstant(ns, kind, policy, plan), runs, cuts, op);
      runs := runs + [op];
    }
  }

  lemma LoneChain(i: Instant, run: Operation, cuts: seq<nat>)
    requires Resumes(i, run)
    ensures Chained(i, [run], cuts)
  {
  }

  /** Where a move is stopped, recovery can start with the plan, and nothing has been lost. */
  lemma StopPlanned(w: World, r: Record, kind: OperationKind, policy: Policy, plan: seq<Entry>, limit: nat, cut: nat,
                    x: Namespace)
    requires Sound(w, r) && Startable(kind, policy, plan, limit) && SameJob(StartedRecord(kind, policy, plan), r)
    requires |w.history| > 0 && NothingLost(plan, x, w.history)
    ensures
      var i := Stop(w.history, cut);
      && Sane(i) && SamePaths(plan, i.saved.entries) && 0 < |plan| <= limit
      && SameJob(StartedRecord(kind, policy, plan), i.saved) && BeginsWith(plan, x, i.(age := 0))
  {
    PlanOf(kind, policy, plan, limit, r);
    var k := if cut < |w.history| then cut else |w.history| - 1;
    HistoryPlanned(w, r, plan, k);
    SameJobThrough(StartedRecord(kind, policy, plan), r, w.history[k].saved);
    assert BeginsWith(plan, x, w.history[k]);
  }

  // The smallest runs that do not come back.

  const ROOT := Node(Identity(1, 1, 1, 0), DirectoryNode, [])
  const FILE := Node(Identity(1, 2, 1, 0), FileNode, [7])
  const MARKED := Node(Identity(1, 2, 1, 5), FileNode, [7])

  function Planned(source: Path, dest: Path, kind: EntryKind, size: nat): Entry {
    Entry(Task(source, dest, kind, size, 0), false, false, false, CleanupNone, NO_IDENTITY, NotReplacing, [],
      NO_IDENTITY)
  }

  function ToBackup(p: Path, id: Identity): Option<Path> { Some(["b"]) }

  const OVERWRITE := [Planned(["s"], ["d"], Directory, 0)]
  const OCCUPIED: Namespace := map[[] := ROOT, ["d"] := FILE]

  lemma OneName(a: string, b: string)
    ensures a != b ==> Separate([a], [b])
    ensures Parent([a]) == []
  {
    assert [a][..0] == [];
    if a != b { assert [a][0] != [b][0]; }
  }

  /** A directory is copied over the file `d`: the file is moved to its backup path, the directory is
      announced by its token, and the machine stops. Recovery then reports success and leaves the
      file at the backup path. */
  method StrandedRun() returns (op: Operation, again: Operation, step: int)
    ensures StoppedAndRestored(FirstInstant(OCCUPIED, Copy, ConflictReplace, OVERWRITE), op, again) && step == 0
    ensures ["d"] in OCCUPIED && ["d"] !in again.backend.w.ns
    ensures |again.r.entries| == 1 && again.r.entries[0].backup in again.backend.w.ns
    ensures again.backend.w.ns[again.r.entries[0].backup].id == OCCUPIED[["d"]].id
  {
    hide Sound, Restorable, Recover, UndoEntry;
    op := DisplaceFile();
    var ok := PrepareEntryToken(op, 0, None);
    again := CrashNow(op, OVERWRITE, 1);
    step := PassesAnnouncement(again);
    step := again.RollbackStep(None);
  }

  /** An undisturbed run began with moment `i` and was stopped; what the disk then held was restored. */
  ghost predicate StoppedAndRestored(i: Instant, op: Operation, again: Operation)
    reads op, op.backend, again, again.backend
  {
    Resumes(i, op) && Resumes(Now(op.backend.w), again)
  }

  /** The first steps of that copy: the file is out of the way. */
  method DisplaceFile() returns (op: Operation)
    ensures fresh(op) && fresh(op.backend) && op.backend.reliable
    ensures Resumes(FirstInstant(OCCUPIED, Copy, ConflictReplace, OVERWRITE), op)
    ensures op.r.head.operation.Copy? && op.r.head.active && op.r.head.entryIndex == 0 && !op.r.tempCreated
    ensures SamePaths(OVERWRITE, op.r.entries) && |op.r.entries| == 1
    ensures !op.r.entries[0].created && op.r.entries[0].objectId == NO_IDENTITY
    ensures ["d"] !in op.backend.w.ns && op.r.entries[0].backup in op.backend.w.ns
    ensures op.backend.w.ns[op.r.entries[0].backup].id == FILE.id
  {
    OverwriteStarts();
    hide Sound, Recover, Startable, StartedRecord, Running, Forward;
    op := Begin(OCCUPIED, ConflictReplace, OVERWRITE, 1, 4096, true, true, ToBackup);
    ghost var e := op.r.entries[0];
    var res := Conflict(op, 0, Some(OCCUPIED));
    HeldFile(OCCUPIED, op.backend.w, op.r);
  }

  lemma OverwriteStarts()
    ensures Closed(OCCUPIED) && Startable(Copy, ConflictReplace, OVERWRITE, 1)
    ensures
      var r := StartedRecord(Copy, ConflictReplace, OVERWRITE);
      && r.entries == OVERWRITE && EntryOnTop(r, 0) && Pristine(r.entries[0]) && !r.tempCreated
      && r.head == Header(Copy, ConflictReplace, OK, true, false, false, false, 0, 1)
      && ProposalFits(OCCUPIED, r.entries[0], ToBackup)
  {
    OneName("d", "b");
    OneName("s", "d");
    OneName("s", "b");
    assert StartableEntry(Copy, OVERWRITE, 0);
  }

  /** What can be undone was held. */
  lemma HeldFile(x: Namespace, w: World, r: Record)
    requires Sound(w, r) && EntryOnTop(r, 0) && Underway(r.entries[0]) && r.entries[0].replacement.BackupHeld?
    requires r.entries[0].task.dest !in w.ns && Recover(w.ns, r) == Some(x)
    ensures r.entries[0].backup in w.ns && r.entries[0].task.dest in x
    ensures x[r.entries[0].task.dest] == w.ns[r.entries[0].backup]
  {
    EntryDefined(w.ns, r, 0);
    RecoverByTop(w.ns, r, 0);
    MovedEnds(w.ns, r.entries[0].backup, r.entries[0].task.dest);
  }

  /** Stops an operation where it stands and restores it. */
  method CrashNow(op: Operation, plan: seq<Entry>, limit: nat) returns (again: Operation)
    requires op.Well() && op.backend.w.saved == op.r && Interrupted(op.r)
    requires SamePaths(plan, op.r.entries) && 0 < |plan| <= limit
    ensures fresh(again) && fresh(again.backend) && again.Well() && again.backend.quiet && again.backend.reliable
    ensures again.r == Resumed(op.r) && again.backend.w.ns == op.backend.w.ns && Restorable(again.r)
    ensures Resumes(Now(op.backend.w), again)
  {
    ResumedRecovers(op.backend.w.ns, op.r);
    again := Restart(Now(op.backend.w), plan, limit, true, true, op.backend.proposal, Loose);
  }

  const BLOCKER := TempPathOf(["d"], 1)
  const CROWDED: Namespace := map[[] := ROOT, ["s"] := FILE, BLOCKER := FILE]
  const PLAIN := [Planned(["s"], ["d"], File, 1)]
  const EMPTY := [Planned(["s"], ["d"], File, 0)]

  /** A foreign object has the first temporary name, and the machine stops after that name was
      announced: recovery never finishes, however often it is retried. */
  method BlockedRun(retries: nat) returns (op: Operation, again: Operation, finished: bool)
    ensures StoppedAndRestored(FirstInstant(CROWDED, Copy, ConflictFail, PLAIN), op, again)
    ensures again.backend.reliable && again.r.head.recoveryRequired && !finished
  {
    hide Sound, Recover, Startable, Sane, StartedRecord, Blocked, TempPathOf, Digits;
    op := ToBlocked();
    var turns;
    again, finished, turns := RecoverFrom(Now(op.backend.w), PLAIN, 1, true, true, retries, ToBackup, None);
  }

  method ToBlocked() returns (op: Operation)
    ensures fresh(op) && fresh(op.backend) && Resumes(FirstInstant(CROWDED, Copy, ConflictFail, PLAIN), op)
    ensures Sane(Now(op.backend.w)) && op.backend.w.saved == op.r && Interrupted(op.r)
    ensures SamePaths(PLAIN, op.r.entries) && Blocked(op.backend.w.ns, op.r)
  {
    PlainStarts(PLAIN);
    BlockerBesideRoot();
    hide TempPathOf, Digits, Sound, Recover, InPhase, Startable, Sane, StartedRecord, Restorable, AllRoll, Closed;
    op := Begin(CROWDED, ConflictFail, PLAIN, 1, 4096, true, true, ToBackup);
    NameOfEntry(op.r.entries, 0, 1);
    var ok, token := AnnounceTemp(op, BLOCKER, None);
    MomentNow(op.backend.w, op.r);
  }

  lemma PlainStarts(plan: seq<Entry>)
    requires plan == PLAIN || plan == EMPTY
    ensures Startable(Copy, ConflictFail, plan, 1)
    ensures
      var r := StartedRecord(Copy, ConflictFail, plan);
      && r.entries == plan && EntryOnTop(r, 0) && Pristine(r.entries[0]) && !r.tempCreated
      && r.head == Header(Copy, ConflictFail, OK, true, false, false, false, 0, 1)
  {
    OneName("s", "d");
    assert StartableEntry(Copy, plan, 0);
    assert FileBytes(plan, 1) == plan[0].task.size;
  }

  lemma BlockerBesideRoot()
    ensures Closed(CROWDED) && Parent(BLOCKER) == [] && CanCreate(SPARE, BLOCKER) && Closed(SPARE)
    ensures BLOCKER != ["d"] && BLOCKER != ["s"] && !(BLOCKER <= ["d"])
  {
    TempIsLonger();
    hide TempPathOf, Digits;
    OneName("s", "d");
    OneName("d", "s");
  }

  lemma TempIsLonger()
    ensures BLOCKER != ["s"] && BLOCKER != ["d"]
  {
    assert |BLOCKER| == 1 && "d" < BLOCKER[0];
  }

  lemma MomentNow(w: World, r: Record)
    requires Sound(w, r)
    ensures Sane(Now(w))
  {
  }

  const ERRAND := [Planned(["a"], ["b"], File, 1)]
  const BEFORE: Namespace := map[[] := ROOT, ["a"] := FILE]
  const BEFORE_MARKED: Namespace := map[[] := ROOT, ["a"] := MARKED]

  /** The file `a` is moved to `b` as far as the rename and the record that only the syncs are
      missing; then the machine stops. Recovery leaves the file at `b`. */
  method WindowRun() returns (op: Operation, again: Operation, step: int)
    ensures StoppedAndRestored(FirstInstant(BEFORE, Move, ConflictFail, ERRAND), op, again) && step == 0
    ensures ["a"] in BEFORE && ["a"] !in again.backend.w.ns
    ensures ["b"] in again.backend.w.ns && again.backend.w.ns[["b"]] == FILE
  {
    hide Sound, Restorable;
    op := MoveToWindow(BEFORE, FILE);
    again := CrashNow(op, ERRAND, 1);
    step := LeavesAtDestination(again);
    step := again.RollbackStep(None);
  }

  /** The same with a file that carries a token, and the move of it complete: recovery deletes it. */
  method MarkedRun() returns (op: Operation, again: Operation, step: int)
    ensures StoppedAndRestored(FirstInstant(BEFORE_MARKED, Move, ConflictFail, ERRAND), op, again) && step == -1
    ensures ["a"] in BEFORE_MARKED && BEFORE_MARKED[["a"]] == MARKED
    ensures forall p :: p in again.backend.w.ns ==> again.backend.w.ns[p] != MARKED
  {
    hide Sound, Restorable, RemoveNode, UndoEntry, Sane, StartedRecord, Startable;
    op := MoveToWindow(BEFORE_MARKED, MARKED);
    ghost var r0 := WithEntry(op.r, 0, op.r.entries[0].(cleanup := RenameInProgress));
    WithEntryTwice(op.r, 0);
    var ok := LeaveWindow(op, 0, r0, None);
    again := CrashNow(op, ERRAND, 1);
    LoneFile(again.backend.w.ns, MARKED);
    step := RemovesMarked(again);
  }

  lemma LoneFile(ns: Namespace, node: Node)
    requires ns == map[[] := ROOT, ["b"] := node] && node.kind.FileNode?
    ensures RemoveNode(ns, ["b"], false) == Some(ns - {["b"]}) && ns - {["b"]} == map[[] := ROOT]
  {
  }

  /** The steps of a move up to the window of its rename. */
  method MoveToWindow(ns: Namespace, node: Node) returns (op: Operation)
    requires ns == map[[] := ROOT, ["a"] := node] && node.id.Valid() && node.kind.FileNode?
    ensures fresh(op) && fresh(op.backend) && op.backend.reliable && op.claim.Exact?
    ensures Resumes(FirstInstant(ns, Move, ConflictFail, ERRAND), op)
    ensures !op.r.head.operation.Copy? && op.backend.w.saved == op.r && Interrupted(op.r) && Restorable(op.r)
    ensures !op.r.tempCreated && op.r.head.entryIndex == 0
    ensures op.r.entries ==
      [Leaving(StartedEntry(ERRAND[0]), node.id).(cleanup := RenameSyncPending)]
    ensures op.backend.w.ns == map[[] := ROOT, ["b"] := node]
  {
    hide Sound, InMovePhase, Startable, StartedRecord, Restorable, CanMove, Moved, Closed;
    ErrandStarts();
    MovedOne(ns, node);
    op := BeginAnyMove(Move, ns, ConflictFail, ERRAND, 1, true, true);
    var e := op.r.entries[0];
    var ok := op.AdvanceEntry(0, Leaving(e, node.id), None);
    var status := RenameThere(op, 0, None);
    var res := EnterWindow(op, 0, None);
  }

  lemma ErrandStarts()
    ensures Startable(Move, ConflictFail, ERRAND, 1)
    ensures
      var r := StartedRecord(Move, ConflictFail, ERRAND);
      && r.entries == [StartedEntry(ERRAND[0])] && !r.tempCreated && Restorable(r)
      && r.head == Header(Move, ConflictFail, OK, true, false, false, false, 0, 1)
  {
    assert StartableEntry(Move, ERRAND, 0);
    StartedRestorable(Move, ConflictFail, ERRAND, 1);
  }

  lemma MovedOne(ns: Namespace, node: Node)
    requires ns == map[[] := ROOT, ["a"] := node]
    ensures Closed(ns) && CanMove(ns, ["a"], ["b"]) && Moved(ns, ["a"], ["b"]) == map[[] := ROOT, ["b"] := node]
  {
    OneName("a", "b");
    var m := Moved(ns, ["a"], ["b"]);
    var want: Namespace := map[[] := ROOT, ["b"] := node];
    forall q ensures AgreeAt(m, want, q) {
      MovedAt(ns, ["a"], ["b"], q);
      if ["b"] <= q {
        assert q == ["b"] + q[1..] && |["a"] + q[1..]| == |q|;
        assert q[1..] == [] ==> q == ["b"] && ["a"] + q[1..] == ["a"];
      }
    }
    SameMap(m, want);
  }

  const SPARE: Namespace := map[[] := ROOT, ["s"] := Node(Identity(1, 2, 1, 0), FileNode, [])]
  const FOREIGN := Node(Identity(1, 4, 1, 0), FileNode, [1])

  /** The copy of an empty file, up to where it has made its temporary object. */
  method ToTemporary() returns (op: Operation)
    ensures fresh(op) && fresh(op.backend) && op.backend.reliable
    ensures Resumes(FirstInstant(SPARE, Copy, ConflictFail, EMPTY), op)
    ensures op.r.head == StartedRecord(Copy, ConflictFail, EMPTY).head && op.r.entries == EMPTY
    ensures Follows(true, op.claim, Some(SPARE), op.backend.w, op.r)
    ensures TempStands(op.backend.w.ns, op.r) && op.r.tempPath == BLOCKER
    ensures op.backend.w.ns == SPARE[BLOCKER := op.backend.w.ns[BLOCKER]]
  {
    PlainStarts(EMPTY);
    BlockerBesideRoot();
    hide TempPathOf, Digits, Sound, Recover, Startable, Sane, StartedRecord, AllGood, AllRoll, Restorable, TempStands;
    hide TempName, Fresh, Running, Forward, Closed;
    op := Begin(SPARE, ConflictFail, EMPTY, 1, 4096, true, true, ToBackup);
    NameOfEntry(op.r.entries, 0, 1);
    var res, again := TryTemp(op, BLOCKER, Some(SPARE));
  }

  /** And up to where its publication is announced. */
  method ToPublication() returns (op: Operation)
    ensures fresh(op) && fresh(op.backend) && op.backend.reliable
    ensures Resumes(FirstInstant(SPARE, Copy, ConflictFail, EMPTY), op) && op.r.head.operation.Copy?
    ensures op.backend.w.saved == op.r && Restorable(op.r) && TempStands(op.backend.w.ns, op.r)
    ensures |op.r.entries| == 1 && op.r.entries[0].created && op.r.entries[0].objectId == op.r.tempId
    ensures op.r.entries[0].task.dest == ["d"] && op.r.tempPath == BLOCKER
    ensures op.backend.w.ns == SPARE[BLOCKER := op.backend.w.ns[BLOCKER]]
  {
    BlockerBesideRoot();
    hide TempPathOf, Digits, Sound, Recover, Startable, Sane, AllGood, AllRoll, Restorable, Closed;
    op := ToTemporary();
    var ok := AnnouncePublish(op, 0, Some(SPARE));
  }

  /** Somebody else changes the namespace between two calls of an operation, which then goes on. */
  method Meanwhile(op: Operation, ns: Namespace) returns (later: Operation)
    requires op.Well() && op.backend.w.saved == op.r && Restorable(op.r)
    requires Closed(ns) && Unforged(ns, op.backend.w.issued, op.backend.w.made)
    ensures fresh(later) && fresh(later.backend) && later.Well() && later.backend.quiet && later.backend.reliable
    ensures later.r == op.r && later.backend.start == Now(op.backend.w).(ns := ns, age := 0)
    ensures later.backend.w == Begun(Now(op.backend.w).(ns := ns), true)
  {
    hide Recover;
    var backend := new Backend(Now(op.backend.w).(ns := ns), true, true, op.backend.proposal);
    later := new Operation(backend, op.r, op.capacity, Loose);
  }

  /** A copy of `s` to `d` has made its temporary object and announced the publication of it; then
      somebody puts another object at the temporary path. That object, which the copy never made, is
      what gets the destination's name. */
  method ForeignIsPublished() returns (op: Operation, later: Operation, status: Status)
    ensures Resumes(FirstInstant(SPARE, Copy, ConflictFail, EMPTY), op) && op.r.tempCreated
    ensures ["d"] !in op.backend.w.ns && op.r.tempPath in op.backend.w.ns
    ensures op.backend.w.ns[op.r.tempPath].id == op.r.tempId && op.r.tempId in op.backend.w.made
    ensures later.Well() && SameJob(op.r, later.r)
    ensures later.backend.start == Now(op.backend.w).(ns := op.backend.w.ns[op.r.tempPath := FOREIGN], age := 0)
    ensures status == Ok && FOREIGN.id !in later.backend.w.made
    ensures ["d"] in later.backend.w.ns && later.backend.w.ns[["d"]] == FOREIGN
  {
    hide Sound, Recover, Digits, TempPathOf, Restorable, Closed, Unforged, SameTasks;
    op := ToPublication();
    SameJobAlways(op.r);
    SwapFits(op.backend.w, op.r);
    later := Meanwhile(op, op.backend.w.ns[op.r.tempPath := FOREIGN]);
    status := FileCopy.Publish(later, 0, None);
  }

  lemma SwapFits(w: World, r: Record)
    requires Sound(w, r) && TempStands(w.ns, r) && r.tempPath == BLOCKER && w.ns == SPARE[BLOCKER := w.ns[BLOCKER]]
    ensures
      var ns := w.ns[BLOCKER := FOREIGN];
      Closed(ns) && Unforged(ns, w.issued, w.made) && CanCreate(ns, ["d"])
    ensures r.tempId in w.made && FOREIGN.id !in w.made
  {
    BlockerBesideRoot();
    hide TempPathOf, Digits;
  }
}
