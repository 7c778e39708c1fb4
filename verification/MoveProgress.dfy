/** A move that can succeed does, and comes to the same as renaming one entry after the other. */
module MoveProgress {
  import opened Common
  import opened Namespaces
  import opened UndoSpec
  import opened FileBackend
  import opened FileOperations
  import opened CopyRun
  import opened FileMove
  import opened FileRuns

  /** The namespace and the entries passed over for a taken destination, after some entries. */
  datatype Tally = Tally(ns: Namespace, marked: set<nat>)

  /** The entry is marked itself or lies under a marked directory. */
  predicate Passed(plan: seq<Entry>, marked: set<nat>, i: nat)
    requires i < |plan|
  {
    i in marked ||
    exists k :: 0 <= k < i && k in marked && plan[k].task.kind.Directory? &&
      plan[k].task.source <= plan[i].task.source
  }

  /** One entry: mark it when its destination is taken, and rename unless it is passed over. */
  function Dealt(plan: seq<Entry>, t: Tally, i: nat): Tally
    requires i < |plan|
  {
    var task := plan[i].task;
    var marked := if task.dest in t.ns then t.marked + {i} else t.marked;
    Tally(if Passed(plan, marked, i) then t.ns else Moved(t.ns, task.source, task.dest), marked)
  }

  /** The first `k` entries, one after the other. */
  function Renamed(ns: Namespace, plan: seq<Entry>, k: nat): Tally
    requires k <= |plan|
  {
    if k == 0 then Tally(ns, {}) else Dealt(plan, Renamed(ns, plan, k - 1), k - 1)
  }

  /** Nothing stands in the way of entry `i` once those before it are dealt with. */
  predicate FeasibleMove(policy: Policy, plan: seq<Entry>, t: Tally, i: nat)
    requires i < |plan|
  {
    if plan[i].task.dest in t.ns then policy.ConflictSkip?
    else Passed(plan, t.marked, i) || Movable(t.ns, plan[i].task)
  }

  /** The record shows exactly these marks. */
  ghost predicate Shows(entries: seq<Entry>, marked: set<nat>) {
    forall j :: 0 <= j < |entries| ==> (entries[j].skip <==> j in marked)
  }

  lemma SkippedIsPassed(plan: seq<Entry>, entries: seq<Entry>, marked: set<nat>, i: nat)
    requires SameTasks(plan, entries) && Shows(entries, marked) && i < |plan|
    ensures Skipped(entries, i) <==> Passed(plan, marked, i)
  {
    forall k | 0 <= k < |plan| ensures SameTask(plan[k], entries[k]) { }
  }

  /** What a pump does is what the entry calls for. */
  lemma DealtWith(plan: seq<Entry>, t: Tally, i: nat, ns: Namespace, r: Record, ns': Namespace, r': Record)
    requires i < |plan| && SameTasks(plan, r.entries) && SameTasks(plan, r'.entries)
    requires ns == t.ns && Shows(r.entries, t.marked) && MovesOn(ns, r, i, ns', r')
    ensures
      var next := Dealt(plan, t, i);
      ns' == next.ns && Shows(r'.entries, next.marked)
  {
    var next := Dealt(plan, t, i);
    assert SameTask(plan[i], r.entries[i]);
    forall j | 0 <= j < |r'.entries| ensures r'.entries[j].skip <==> j in next.marked {
      if j != i { assert r'.entries[j] == r.entries[j]; }
    }
    SkippedIsPassed(plan, r'.entries, next.marked, i);
  }

  lemma FeasibleFits(policy: Policy, plan: seq<Entry>, t: Tally, i: nat, r: Record)
    requires i < |plan| && SameTasks(plan, r.entries) && Shows(r.entries, t.marked) && r.head.policy == policy
    requires FeasibleMove(policy, plan, t, i)
    ensures MoveFits(t.ns, r, i)
  {
    assert SameTask(plan[i], r.entries[i]);
    SkippedIsPassed(plan, r.entries, t.marked, i);
  }

  /** Every move of a feasible plan comes to its end when nobody else touches the namespace, nobody
      cancels and calls fail only for cause. It takes one pump an entry and one more, and leaves what
      renaming the entries one after the other leaves. */
  method MoveSucceeds(kind: OperationKind, ns: Namespace, policy: Policy, plan: seq<Entry>, limit: nat)
    returns (op: Operation, pumps: nat)
    requires Closed(ns) && !kind.Copy? && Startable(kind, policy, plan, limit)
    requires forall i :: 0 <= i < |plan| ==> FeasibleMove(policy, plan, Renamed(ns, plan, i), i)
    ensures op.Well() && op.backend.quiet && op.backend.start == FirstInstant(ns, kind, policy, plan)
    ensures SameJob(StartedRecord(kind, policy, plan), op.r)
    ensures InMovePhase(Exact, Some(ns), true, op.backend.w, op.r, Copied)
    ensures op.backend.w.ns == Renamed(ns, plan, |plan|).ns && pumps == |plan| + 1
  {
    hide Sound, InMovePhase, Startable, SameTasks, StartedRecord, MovesOn, Dealt, MoveFits, FeasibleMove, Shows;
    op := BeginAnyMove(kind, ns, policy, plan, limit, true, true);
    StartShows(kind, policy, plan, limit);
    var phase := Going;
    ghost var loss;
    pumps := 0;
    while pumps < |plan|
      invariant pumps <= |plan| && op.r.head.entryIndex == pumps && phase.Going? && fresh(op) && fresh(op.backend)
      invariant op.Well() && !op.r.head.operation.Copy? && SameJob(StartedRecord(kind, policy, plan), op.r)
      invariant op.backend.quiet && op.backend.reliable && op.claim.Exact? && !op.cancelRequested
      invariant op.backend.start == FirstInstant(ns, kind, policy, plan)
      invariant InMovePhase(op.claim, Some(ns), true, op.backend.w, op.r, phase)
      invariant op.backend.w.ns == Renamed(ns, plan, pumps).ns && Shows(op.r.entries, Renamed(ns, plan, pumps).marked)
    {
      ghost var r0, ns0, t := op.r, op.backend.w.ns, Renamed(ns, plan, pumps);
      JobOf(kind, policy, plan, limit, op.r);
      FeasibleFits(policy, plan, t, pumps, op.r);
      phase, loss := PumpAnyMove(op, phase, Some(ns));
      SameJobThrough(StartedRecord(kind, policy, plan), r0, op.r);
      JobOf(kind, policy, plan, limit, op.r);
      DealtWith(plan, t, pumps, ns0, r0, op.backend.w.ns, op.r);
      pumps := pumps + 1;
    }
    JobOf(kind, policy, plan, limit, op.r);
    ghost var r0 := op.r;
    phase, loss := PumpAnyMove(op, phase, Some(ns));
    SameJobThrough(StartedRecord(kind, policy, plan), r0, op.r);
    pumps := pumps + 1;
  }

  lemma StartShows(kind: OperationKind, policy: Policy, plan: seq<Entry>, limit: nat)
    requires Startable(kind, policy, plan, limit)
    ensures Shows(StartedRecord(kind, policy, plan).entries, {})
    ensures StartedRecord(kind, policy, plan).head.entryIndex == 0
  {
  }

  lemma JobOf(kind: OperationKind, policy: Policy, plan: seq<Entry>, limit: nat, r: Record)
    requires Startable(kind, policy, plan, limit) && SameJob(StartedRecord(kind, policy, plan), r)
    ensures SameTasks(plan, r.entries) && |plan| == |r.entries| && r.head.policy == policy
    ensures r.head.operation == kind
  {
    PlanOf(kind, policy, plan, limit, r);
  }
}
